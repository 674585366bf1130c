/** The daily run (news_bot.py `main`): keep the collected items whose link
    was never sent, and remember them in the archive of sent items, which
    keeps only its newest 1000 entries. The archive file is read and written
    by the caller; here it is the list as loaded. */
module NewsBot {
  import opened Scraper

  /** The archive keeps this many of the most recent entries. */
  const ArchiveCap: nat := 1000

  /** `[news for news in all_news if news['link'] not in sent_links]`. */
  function Unsent(all: seq<NewsItem>, sentLinks: set<string>): (r: seq<NewsItem>)
    ensures |r| <= |all|
  {
    if all == [] then []
    else
      var init, last := all[..|all| - 1], all[|all| - 1];
      if last.link in sentLinks then Unsent(init, sentLinks) else Unsent(init, sentLinks) + [last]
  }

  /** The new items are exactly the collected items whose link is not among
      the sent links. */
  lemma {:induction false} UnsentMembers(all: seq<NewsItem>, sentLinks: set<string>)
    ensures forall x :: x in Unsent(all, sentLinks) <==> x in all && x.link !in sentLinks
  {
    if all != [] {
      var init, last := all[..|all| - 1], all[|all| - 1];
      assert all == init + [last];
      UnsentMembers(init, sentLinks);
    }
  }

  /** The new items keep the collection order. */
  lemma {:induction false} UnsentSubsequence(all: seq<NewsItem>, sentLinks: set<string>)
    ensures IsSubsequence(Unsent(all, sentLinks), all)
  {
    if all != [] {
      var init, last := all[..|all| - 1], all[|all| - 1];
      assert all == init + [last];
      UnsentSubsequence(init, sentLinks);
      var u := Unsent(init, sentLinks);
      if last.link in sentLinks {
        SubsequenceAppend(u, init, last);
      } else {
        assert (u + [last])[..|u|] == u;
      }
    }
  }

  /** Filtering a list without repeated links leaves it without. */
  lemma {:induction false} UnsentDistinct(all: seq<NewsItem>, sentLinks: set<string>)
    requires NoDuplicateLinks(all)
    ensures NoDuplicateLinks(Unsent(all, sentLinks))
  {
    if all != [] {
      var init, last := all[..|all| - 1], all[|all| - 1];
      assert all == init + [last];
      UnsentDistinct(init, sentLinks);
      UnsentMembers(init, sentLinks);
      if last.link !in sentLinks {
        var u := Unsent(init, sentLinks);
        var r := Unsent(all, sentLinks);
        forall i | 0 <= i < |u| ensures r[i].link != last.link {
          var j :| 0 <= j < |init| && init[j] == u[i];
          assert all[j] == u[i];
        }
      }
    }
  }

  /** `s[-1000:]` when `s` is longer than the cap: the newest entries, the
      oldest dropped first. */
  function Retain(s: seq<NewsItem>): (r: seq<NewsItem>)
    ensures |r| == if |s| <= ArchiveCap then |s| else ArchiveCap
    ensures r == s[|s| - |r|..]
  {
    if |s| > ArchiveCap then s[|s| - ArchiveCap..] else s
  }

  /** The archive after the run: unchanged when nothing is new, otherwise
      the new items appended and the result cut to the cap. */
  function Committed(sent: seq<NewsItem>, newNews: seq<NewsItem>): seq<NewsItem> {
    if newNews == [] then sent else Retain(sent + newNews)
  }

  /** Lines 129-134 of `main`: `sent_news.extend(new_news)`, the `[-1000:]`
      cut, and whether `save_sent_news` is called. */
  method UpdateArchive(sent: seq<NewsItem>, newNews: seq<NewsItem>) returns (archive: seq<NewsItem>, saved: bool)
    ensures saved <==> newNews != []
    ensures archive == Committed(sent, newNews)
    ensures saved ==> |archive| <= ArchiveCap
    ensures !saved ==> archive == sent
  {
    archive := sent;
    saved := false;
    if newNews != [] {
      archive := archive + newNews;
      if |archive| > ArchiveCap {
        archive := archive[|archive| - ArchiveCap..];
      }
      saved := true;
    }
  }

  /** Below the cap nothing is dropped; above it the archive is the newest
      1000 entries of the old archive followed by the new items. */
  lemma CommittedContents(sent: seq<NewsItem>, newNews: seq<NewsItem>)
    requires newNews != []
    ensures |sent| + |newNews| <= ArchiveCap ==> Committed(sent, newNews) == sent + newNews
    ensures |sent| + |newNews| > ArchiveCap ==>
              |Committed(sent, newNews)| == ArchiveCap
              && Committed(sent, newNews) == (sent + newNews)[|sent| + |newNews| - ArchiveCap..]
  {
  }

  /** Nothing is new when every collected link was already sent. */
  lemma {:induction false} UnsentNone(all: seq<NewsItem>, sentLinks: set<string>)
    requires forall x :: x in all ==> x.link in sentLinks
    ensures Unsent(all, sentLinks) == []
  {
    if all != [] {
      assert all[|all| - 1] in all;
      UnsentNone(all[..|all| - 1], sentLinks);
    }
  }

  /** When at most 1000 items are new, every one of them is in the archive
      afterwards. */
  lemma CommittedKeepsNew(sent: seq<NewsItem>, newNews: seq<NewsItem>)
    requires |newNews| <= ArchiveCap
    ensures Links(newNews) <= Links(Committed(sent, newNews))
  {
    var a := Committed(sent, newNews);
    forall l | l in Links(newNews) ensures l in Links(a) {
      var x :| x in newNews && x.link == l;
      var k :| 0 <= k < |newNews| && newNews[k] == x;
      var s := sent + newNews;
      assert s[|sent| + k] == x;
      assert a[|a| - |newNews| + k] == x;
    }
  }

  /** A second run on the same collected items can only deliver items that
      were in the archive before the first run and were dropped from it by
      the cap. */
  lemma RerunDeliversOnlyEvicted(all: seq<NewsItem>, sent: seq<NewsItem>)
    requires |Unsent(all, Links(sent))| <= ArchiveCap
    ensures var archive := Committed(sent, Unsent(all, Links(sent)));
            forall x :: x in Unsent(all, Links(archive)) ==> x.link in Links(sent) && x.link !in Links(archive)
  {
    var newNews := Unsent(all, Links(sent));
    var archive := Committed(sent, newNews);
    UnsentMembers(all, Links(sent));
    UnsentMembers(all, Links(archive));
    CommittedKeepsNew(sent, newNews);
  }

  /** So when nothing is dropped, a second run delivers nothing. */
  lemma RerunDeliversNothing(all: seq<NewsItem>, sent: seq<NewsItem>)
    requires |sent| + |Unsent(all, Links(sent))| <= ArchiveCap
    ensures Unsent(all, Links(Committed(sent, Unsent(all, Links(sent))))) == []
  {
    var newNews := Unsent(all, Links(sent));
    var archive := Committed(sent, newNews);
    UnsentMembers(all, Links(sent));
    CommittedKeepsNew(sent, newNews);
    assert Links(sent) <= Links(archive) by {
      forall l | l in Links(sent) ensures l in Links(archive) {
        var x :| x in sent && x.link == l;
        assert x in sent + newNews;
      }
    }
    forall x | x in all ensures x.link in Links(archive) {
      if x.link !in Links(sent) {
        assert x in newNews;
      }
    }
    UnsentNone(all, Links(archive));
  }

  /** The outcome of `main` once the token is present: with no subscribers
      it stops before collecting anything. */
  datatype RunOutcome =
    | NoSubscribers
    | Delivered(newNews: seq<NewsItem>, archive: seq<NewsItem>, saved: bool)

  /** `main` without the token lookup and the message delivery: collect,
      keep the unsent items, update the archive. */
  method DailyRun(users: seq<string>, fetch: string -> Response, sent: seq<NewsItem>) returns (outcome: RunOutcome)
    ensures users == [] <==> outcome == NoSubscribers
    ensures outcome.Delivered? ==>
              outcome.newNews == Unsent(AllNews(fetch), Links(sent))
              && outcome.archive == Committed(sent, outcome.newNews)
              && (outcome.saved <==> outcome.newNews != [])
    ensures outcome.Delivered? ==>
              NoDuplicateLinks(outcome.newNews)
              && |outcome.newNews| <= 2 * SearchedKeywords * ArticleLimit
              && forall x :: x in outcome.newNews ==> x.link !in Links(sent) && IsRelevant(x.title)
  {
    if users == [] {
      return NoSubscribers;
    }
    var all := GetAllNews(fetch);
    var sentLinks := Links(sent);
    var newNews := Unsent(all, sentLinks);
    UnsentMembers(all, sentLinks);
    UnsentDistinct(all, sentLinks);
    var archive, saved := UpdateArchive(sent, newNews);
    outcome := Delivered(newNews, archive, saved);
  }

  /** Running twice on the same collected items delivers nothing the second
      time, as long as the archive held at most 970 entries. */
  lemma SecondRunDeliversNothing(fetch: string -> Response, sent: seq<NewsItem>)
    requires |sent| + 2 * SearchedKeywords * ArticleLimit <= ArchiveCap
    ensures var first := Unsent(AllNews(fetch), Links(sent));
            Unsent(AllNews(fetch), Links(Committed(sent, first))) == []
  {
    var all := AllNews(fetch);
    DedupSubsequence(Search(Mehr, fetch) + Search(Isna, fetch));
    SubsequenceLength(all, Search(Mehr, fetch) + Search(Isna, fetch));
    SearchBounded(Mehr, fetch);
    SearchBounded(Isna, fetch);
    RerunDeliversNothing(all, sent);
  }
}
