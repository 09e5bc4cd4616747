/**
 * The two evidence scans, `scrape_replies` and `check_retweet`, over what the
 * browser would show instead of over a live browser. A page is given by its URL:
 * `articles(url)` lists the page's `article` elements in rendering order, each with
 * its text and the href of its first `a[href*='/status/']` link (None when that
 * lookup raises); `statusLinks(url)` lists the hrefs of every such link inside
 * an article of the page.
 */
module Evidence {
  import opened Common
  import opened PyStr

  datatype Article = Article(text: string, statusLink: Option<string>)

  datatype Web = Web(articles: string -> seq<Article>, statusLinks: string -> seq<string>)

  /** The only failure the scans raise themselves: no stored cookies and a missing credential. */
  datatype ScanError = NoCookiesNoCredentials

  /** The keyword `button` asks `scrape_replies` to look for. */
  const Keyword: string := "$Broke"

  const Site: string := "https://x.com/"

  function RepliesUrl(username: string): string
  {
    Site + username + "/with_replies"
  }

  function ProfileUrl(username: string): string
  {
    Site + username
  }

  /**
   * The session gate at the head of both scans: stored cookies are loaded, or
   * else both credentials must be truthy so that a login can save fresh cookies.
   */
  predicate SessionAvailable(cookiesStored: bool, loginUser: Option<string>, loginPass: Option<string>)
  {
    cookiesStored || (Truthy(loginUser) && Truthy(loginPass))
  }

  /** `keyword.lower() in text.lower()`. */
  predicate Matches(text: string, keyword: string)
  {
    Contains(Lower(text), Lower(keyword))
  }

  /** The index of the first article whose text matches `keyword`, if any. */
  function FirstMatch(arts: seq<Article>, keyword: string): (k: Option<nat>)
    ensures k.Some? ==> k.value < |arts| && Matches(arts[k.value].text, keyword)
    ensures k.Some? ==> forall j :: 0 <= j < k.value ==> !Matches(arts[j].text, keyword)
    ensures k.None? <==> forall j :: 0 <= j < |arts| ==> !Matches(arts[j].text, keyword)
  {
    if arts == [] then None
    else if Matches(arts[0].text, keyword) then Some(0)
    else match FirstMatch(arts[1..], keyword)
      case None => None
      case Some(j) => Some(j + 1)
  }

  /**
   * The parent link found from one reply: the reply's link must be truthy, its
   * thread page must show at least two articles, and the first one's link is taken.
   */
  function ThreadParent(replyLink: Option<string>, web: Web): Option<string>
  {
    if Truthy(replyLink) && |web.articles(replyLink.value)| >= 2
    then web.articles(replyLink.value)[0].statusLink
    else None
  }

  /** What `scrape_replies` returns once the session gate has passed. */
  function ReplyParent(tweets: seq<Article>, keyword: string, web: Web): Option<string>
  {
    match FirstMatch(tweets, keyword)
    case None => None
    case Some(k) => ThreadParent(tweets[k].statusLink, web)
  }

  /** `check_retweet`'s answer: some link contains the task URL as a substring. */
  predicate Retweeted(posts: seq<string>, taskUrl: string)
  {
    exists i | 0 <= i < |posts| :: Contains(posts[i], taskUrl)
  }

  /** `scrape_replies(username, keyword, login_user, login_pass)`. */
  method ScrapeReplies(username: string, keyword: string, cookiesStored: bool,
                       loginUser: Option<string>, loginPass: Option<string>, web: Web)
    returns (r: Result<Option<string>, ScanError>)
    ensures r.Err? <==> !SessionAvailable(cookiesStored, loginUser, loginPass)
    ensures r.Ok? ==> r.value == ReplyParent(web.articles(RepliesUrl(username)), keyword, web)
  {
    if !cookiesStored && (!Truthy(loginUser) || !Truthy(loginPass)) {
      return Err(NoCookiesNoCredentials);
    }
    var tweets := web.articles(RepliesUrl(username));
    var parentLink: Option<string> := None;
    var i := 0;
    while i < |tweets|
      invariant 0 <= i <= |tweets|
      invariant forall j :: 0 <= j < i ==> !Matches(tweets[j].text, keyword)
      invariant parentLink == None
    {
      if Matches(tweets[i].text, keyword) {
        var replyLink := tweets[i].statusLink;
        if Truthy(replyLink) {
          var thread := web.articles(replyLink.value);
          if |thread| >= 2 {
            parentLink := thread[0].statusLink;
          }
        }
        assert FirstMatch(tweets, keyword) == Some(i);
        break;
      }
      i := i + 1;
    }
    r := Ok(parentLink);
  }

  /** `check_retweet(username, task_url, login_user, login_pass)`. */
  method CheckRetweet(username: string, taskUrl: string, cookiesStored: bool,
                      loginUser: Option<string>, loginPass: Option<string>, web: Web)
    returns (r: Result<bool, ScanError>)
    ensures r.Err? <==> !SessionAvailable(cookiesStored, loginUser, loginPass)
    ensures r.Ok? ==> (r.value <==> Retweeted(web.statusLinks(ProfileUrl(username)), taskUrl))
  {
    if !cookiesStored && (!Truthy(loginUser) || !Truthy(loginPass)) {
      return Err(NoCookiesNoCredentials);
    }
    var posts := web.statusLinks(ProfileUrl(username));
    var retweeted := false;
    var i := 0;
    while i < |posts|
      invariant 0 <= i <= |posts|
      invariant forall j :: 0 <= j < i ==> !Contains(posts[j], taskUrl)
      invariant !retweeted
    {
      if Contains(posts[i], taskUrl) {
        retweeted := true;
        break;
      }
      i := i + 1;
    }
    r := Ok(retweeted);
  }

  /** No matching reply means no parent link. */
  lemma NoMatchNoParent(tweets: seq<Article>, keyword: string, web: Web)
    requires forall j :: 0 <= j < |tweets| ==> !Matches(tweets[j].text, keyword)
    ensures ReplyParent(tweets, keyword, web) == None
  {
  }

  /**
   * Only the first matching reply is examined: whatever follows it, and whether
   * or not its own link leads anywhere, the answer is that reply's thread parent.
   */
  lemma {:induction false} FirstMatchDecides(before: seq<Article>, reply: Article, after: seq<Article>,
                                             keyword: string, web: Web)
    requires forall j :: 0 <= j < |before| ==> !Matches(before[j].text, keyword)
    requires Matches(reply.text, keyword)
    ensures ReplyParent(before + [reply] + after, keyword, web) == ThreadParent(reply.statusLink, web)
  {
    var tweets := before + [reply] + after;
    assert tweets[|before|] == reply;
    forall j | 0 <= j < |before| ensures tweets[j] == before[j] {
    }
  }

  /** A parent link is reported only from a thread page showing at least two articles. */
  lemma ParentNeedsThread(tweets: seq<Article>, keyword: string, web: Web)
    requires ReplyParent(tweets, keyword, web).Some?
    ensures exists k | 0 <= k < |tweets| ::
              && Matches(tweets[k].text, keyword)
              && Truthy(tweets[k].statusLink)
              && |web.articles(tweets[k].statusLink.value)| >= 2
              && ReplyParent(tweets, keyword, web) == web.articles(tweets[k].statusLink.value)[0].statusLink
  {
    var k := FirstMatch(tweets, keyword).value;
    assert Matches(tweets[k].text, keyword);
  }

  /** The keyword test ignores case: "gm $BROKE" and "I love $broke coin" both carry "$Broke". */
  lemma KeywordIgnoresCase()
    ensures Matches("gm $BROKE", Keyword)
    ensures Matches("I love $broke coin", Keyword)
    ensures !Matches("gm broke", Keyword)
  {
    assert OccursAt(Lower("gm $BROKE"), Lower(Keyword), 3);
    assert OccursAt(Lower("I love $broke coin"), Lower(Keyword), 7);
    var plain := Lower("gm broke");
    assert plain == "gm broke";
    forall i | 0 <= i <= |plain| - |Lower(Keyword)| ensures !OccursAt(plain, Lower(Keyword), i) {
      assert plain[i..i + 6][0] == plain[i] != '$';
    }
  }

  /**
   * The retweet test is by substring, not equality: a post link equal to the task
   * URL counts, and so does a longer link that merely contains it.
   */
  lemma RetweetBySubstring(posts: seq<string>, taskUrl: string, tail: string)
    requires taskUrl + tail in posts
    ensures Retweeted(posts, taskUrl)
  {
    var i :| 0 <= i < |posts| && posts[i] == taskUrl + tail;
    assert OccursAt(posts[i], taskUrl, 0);
  }
}
