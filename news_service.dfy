/** `NewsService`: the view counter and the two flags of a news item, and
    the recent and related listings, newest first and cut to a limit. */
module NewsService {
  import opened Common
  import opened Queries
  import opened NewsModel
  import opened Store

  /** `increment_views`: one more view of the item; an unknown id is
      reported and changes nothing. */
  method IncrementViews(db: Database, newsId: int) returns (ok: bool)
    modifies AsSet(db.FindNews(newsId))`viewsCount
    ensures ok <==> db.FindNews(newsId).Some?
    ensures ok ==> db.FindNews(newsId).value.viewsCount == old(db.FindNews(newsId).value.viewsCount) + 1
  {
    var news := db.FindNews(newsId);
    if news.None? {
      return false;
    }
    news.value.viewsCount := news.value.viewsCount + 1;
    return true;
  }

  /** `toggle_featured`: the featured flag flips, so a second call restores
      it; an unknown id is reported and changes nothing. */
  method ToggleFeatured(db: Database, newsId: int) returns (ok: bool)
    modifies AsSet(db.FindNews(newsId))`isFeatured
    ensures ok <==> db.FindNews(newsId).Some?
    ensures ok ==> db.FindNews(newsId).value.isFeatured == !old(db.FindNews(newsId).value.isFeatured)
  {
    var news := db.FindNews(newsId);
    if news.None? {
      return false;
    }
    news.value.isFeatured := !news.value.isFeatured;
    return true;
  }

  /** `toggle_exclusive`: the exclusive flag flips, so a second call
      restores it; an unknown id is reported and changes nothing. */
  method ToggleExclusive(db: Database, newsId: int) returns (ok: bool)
    modifies AsSet(db.FindNews(newsId))`isExclusive
    ensures ok <==> db.FindNews(newsId).Some?
    ensures ok ==> db.FindNews(newsId).value.isExclusive == !old(db.FindNews(newsId).value.isExclusive)
  {
    var news := db.FindNews(newsId);
    if news.None? {
      return false;
    }
    news.value.isExclusive := !news.value.isExclusive;
    return true;
  }

  /** The two listings' filters: recent news (only the non-exclusive items
      when asked), and news related to an item (same category, not the
      item itself). */
  datatype NewsFilter = Recent(excludeExclusive: bool) | Related(newsId: int, category: string)

  predicate Matches(n: News, f: NewsFilter)
    reads n
  {
    match f
    case Recent(excludeExclusive) => excludeExclusive ==> !n.isExclusive
    case Related(newsId, category) => n.category == category && n.id != newsId
  }

  /** The matching items keyed by publication date, in table order: each
      as often as it occurs in `ns`, and nothing else. */
  function MatchingRows(ns: seq<News>, f: NewsFilter): (r: seq<(int, News)>)
    reads ns
    ensures forall x :: x in r ==> x.0 == x.1.publishDate
    ensures multiset(Rows(r)) <= multiset(ns)
    ensures forall x {:trigger multiset(Rows(r))[x]} :: x in ns ==> multiset(Rows(r))[x] == if Matches(x, f) then multiset(ns)[x] else 0
    decreases |ns|
  {
    if ns == [] then []
    else
      var rest := MatchingRows(ns[1..], f);
      assert ns == [ns[0]] + ns[1..];
      RowsAppend([(ns[0].publishDate, ns[0])], rest);
      assert Rows([(ns[0].publishDate, ns[0])]) == [ns[0]];
      if Matches(ns[0], f) then [(ns[0].publishDate, ns[0])] + rest else rest
  }

  /** `filter(...).order_by(desc(News.publish_date))`: exactly the matching
      items, each as often as it occurs, newest first. */
  function Listing(ns: seq<News>, f: NewsFilter): (r: seq<News>)
    reads ns
    ensures forall k :: 0 <= k < |r| ==> r[k] in ns && Matches(r[k], f)
    ensures forall i :: 0 <= i < |ns| && Matches(ns[i], f) ==> ns[i] in r
    ensures forall i, j :: 0 <= i < j < |r| ==> r[i].publishDate >= r[j].publishDate
    ensures multiset(r) <= multiset(ns)
    ensures forall x {:trigger multiset(r)[x]} :: x in ns ==> multiset(r)[x] == if Matches(x, f) then multiset(ns)[x] else 0
  {
    var rows := MatchingRows(ns, f);
    SortedRowsSameMembers(rows, true);
    SortKeepsRows(rows, true);
    var r := Rows(SortByKey(rows, true));
    assert forall k :: 0 <= k < |r| ==> r[k] in ns && Matches(r[k], f) by {
      forall k | 0 <= k < |r| ensures r[k] in ns && Matches(r[k], f) {
        assert r[k] in multiset(r);
      }
    }
    assert forall i :: 0 <= i < |ns| && Matches(ns[i], f) ==> ns[i] in r by {
      forall i | 0 <= i < |ns| && Matches(ns[i], f) ensures ns[i] in r {
        assert ns[i] in multiset(ns);
      }
    }
    r
  }

  /** `... .limit(limit)`: the first `limit` items of the listing (all of
      them when there are fewer), so at most `limit` matching items, newest
      first; a matching item is left out only when `limit` items were kept,
      all of them at least as new as it. */
  function NewestMatching(db: Database, f: NewsFilter, limit: nat): (r: seq<News>)
    reads db, db.news
    ensures forall k :: 0 <= k < |r| ==> r[k] in db.news && Matches(r[k], f)
    ensures forall i, j :: 0 <= i < j < |r| ==> r[i].publishDate >= r[j].publishDate
    ensures forall i :: 0 <= i < |db.news| && Matches(db.news[i], f) && db.news[i] !in r ==>
              |r| == limit && forall k :: 0 <= k < |r| ==> r[k].publishDate >= db.news[i].publishDate
  {
    var all := Listing(db.news, f);
    LimitCutsOnlyOlder(all, limit, db.news, f);
    Take(all, limit)
  }

  /** Over a listing sorted newest first, what the limit cuts is never
      newer than what it keeps. */
  lemma LimitCutsOnlyOlder(all: seq<News>, limit: nat, ns: seq<News>, f: NewsFilter)
    requires forall i, j :: 0 <= i < j < |all| ==> all[i].publishDate >= all[j].publishDate
    requires forall i :: 0 <= i < |ns| && Matches(ns[i], f) ==> ns[i] in all
    ensures forall i :: 0 <= i < |ns| && Matches(ns[i], f) && ns[i] !in Take(all, limit) ==>
              |Take(all, limit)| == limit
              && forall k :: 0 <= k < |Take(all, limit)| ==> Take(all, limit)[k].publishDate >= ns[i].publishDate
  {
    forall i | 0 <= i < |ns| && Matches(ns[i], f) && ns[i] !in Take(all, limit)
      ensures |Take(all, limit)| == limit
      ensures forall k :: 0 <= k < |Take(all, limit)| ==> Take(all, limit)[k].publishDate >= ns[i].publishDate
    {
      LimitKeepsNewest(all, limit, ns[i]);
    }
  }

  /** A row cut by the limit comes after every row kept, and rows were cut
      only if there were more than `n`. */
  lemma LimitKeepsNewest(s: seq<News>, n: nat, x: News)
    requires forall i, j :: 0 <= i < j < |s| ==> s[i].publishDate >= s[j].publishDate
    requires x in s && x !in Take(s, n)
    ensures |Take(s, n)| == n
    ensures forall k :: 0 <= k < |Take(s, n)| ==> Take(s, n)[k].publishDate >= x.publishDate
  {
    var t := Take(s, n);
    var j :| 0 <= j < |s| && s[j] == x;
    assert forall k :: 0 <= k < |t| ==> t[k] == s[k];
  }

  /** `get_recent_news(limit, exclude_exclusive)`: by default the five
      newest items that are not exclusive. The first `limit` of the recent
      listing: a recent item is left out only when `limit` items as new as
      it were kept. */
  function GetRecentNews(db: Database, limit: nat := 5, excludeExclusive: bool := true): (r: seq<News>)
    reads db, db.news
    ensures excludeExclusive ==> forall k :: 0 <= k < |r| ==> !r[k].isExclusive
    ensures forall k :: 0 <= k < |r| ==> r[k] in db.news
    ensures forall i, j :: 0 <= i < j < |r| ==> r[i].publishDate >= r[j].publishDate
    ensures forall i :: 0 <= i < |db.news| && (excludeExclusive ==> !db.news[i].isExclusive) && db.news[i] !in r ==>
              |r| == limit && forall k :: 0 <= k < |r| ==> r[k].publishDate >= db.news[i].publishDate
  {
    var r := NewestMatching(db, Recent(excludeExclusive), limit);
    assert forall k :: 0 <= k < |r| ==> Matches(r[k], Recent(excludeExclusive));
    r
  }

  /** `get_related_news(news_id, category, limit)`: by default the three
      newest other items of the category. The first `limit` of the related
      listing: a related item is left out only when `limit` items as new as
      it were kept. */
  function GetRelatedNews(db: Database, newsId: int, category: string, limit: nat := 3): (r: seq<News>)
    reads db, db.news
    ensures forall k :: 0 <= k < |r| ==> r[k] in db.news && r[k].category == category && r[k].id != newsId
    ensures forall i, j :: 0 <= i < j < |r| ==> r[i].publishDate >= r[j].publishDate
    ensures forall i :: 0 <= i < |db.news| && db.news[i].category == category && db.news[i].id != newsId
                        && db.news[i] !in r ==>
              |r| == limit && forall k :: 0 <= k < |r| ==> r[k].publishDate >= db.news[i].publishDate
  {
    NewestMatching(db, Related(newsId, category), limit)
  }

  /** The limited listings are the first `limit` items of the full
      listing, or all of it when it is shorter. */
  lemma LimitedListingsArePrefixes(db: Database, f: NewsFilter, limit: nat, excludeExclusive: bool,
                                   newsId: int, category: string)
    ensures NewestMatching(db, f, limit) == Listing(db.news, f)[..|NewestMatching(db, f, limit)|]
    ensures |NewestMatching(db, f, limit)| == if |Listing(db.news, f)| <= limit then |Listing(db.news, f)| else limit
    ensures GetRecentNews(db, limit, excludeExclusive)
            == Listing(db.news, Recent(excludeExclusive))[..|GetRecentNews(db, limit, excludeExclusive)|]
    ensures |GetRecentNews(db, limit, excludeExclusive)|
            == if |Listing(db.news, Recent(excludeExclusive))| <= limit
               then |Listing(db.news, Recent(excludeExclusive))| else limit
    ensures GetRelatedNews(db, newsId, category, limit)
            == Listing(db.news, Related(newsId, category))[..|GetRelatedNews(db, newsId, category, limit)|]
    ensures |GetRelatedNews(db, newsId, category, limit)|
            == if |Listing(db.news, Related(newsId, category))| <= limit
               then |Listing(db.news, Related(newsId, category))| else limit
  {
  }

  /** An item is never related to itself, and a non-exclusive item newer
      than some recent item is itself among the recent ones. */
  lemma ListingsAgree(db: Database, n: News, limit: nat)
    requires n in db.news
    ensures n !in GetRelatedNews(db, n.id, n.category, limit)
    ensures !n.isExclusive && n !in GetRecentNews(db, limit) ==>
              forall k :: 0 <= k < |GetRecentNews(db, limit)| ==> GetRecentNews(db, limit)[k].publishDate >= n.publishDate
  {
    var i :| 0 <= i < |db.news| && db.news[i] == n;
  }
}
