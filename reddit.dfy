/**
 * get_posts of extensions/reddit.py: walking a subreddit's top posts of the
 * month, keeping the link posts that pass the spoiler, NSFW and flair
 * filters, stopping after 26, and answering one of them. The subreddit
 * lookup and its post feed come from the Reddit client; here they are
 * inputs, as is the random choice.
 */
module Reddit {
  import opened Wrappers
  import opened Strings

  datatype Submission = Submission(url: string, isSelf: bool, spoiler: bool, over18: bool, flair: Option<string>)

  /** The subreddit as the client reports it: whether it exists, whether it is NSFW, its top posts. */
  datatype Subreddit = Subreddit(found: bool, over18: bool, top: seq<Submission>)

  /** The optional filters: None means "do not filter on this". */
  datatype Filter = Filter(nsfw: Option<bool>, spoiler: Option<bool>, flair: Option<seq<string>>)

  datatype Error = NotFound | NsfwOnly

  /** At most this many images are collected. */
  const Cap := 26

  const NoImages := "No images found!"

  /** A flair text contains one of the listed strings. */
  predicate FlairMatches(text: string, wanted: seq<string>)
  {
    exists k :: 0 <= k < |wanted| && Contains(text, wanted[k])
  }

  /** Whether a post is collected: a link post passing every filter that is set. */
  predicate Keep(s: Submission, f: Filter)
  {
    !s.isSelf
    && (f.spoiler.None? || s.spoiler == f.spoiler.value)
    && (f.nsfw.None? || s.over18 == f.nsfw.value)
    && (f.flair.None? || (s.flair.Some? && FlairMatches(s.flair.value, f.flair.value)))
  }

  /** The urls of every kept post, in feed order. */
  function Kept(feed: seq<Submission>, f: Filter): (urls: seq<string>)
    ensures |urls| <= |feed|
    ensures forall u :: u in urls ==> exists s :: s in feed && Keep(s, f) && s.url == u
  {
    if feed == [] then []
    else
      var last := feed[|feed| - 1];
      Kept(feed[..|feed| - 1], f) + (if Keep(last, f) then [last.url] else [])
  }

  /** The kept urls of a prefix of the feed are a prefix of the kept urls of the feed. */
  lemma {:induction false} KeptPrefix(feed: seq<Submission>, f: Filter, i: nat)
    requires i <= |feed|
    ensures Kept(feed[..i], f) <= Kept(feed, f)
    decreases |feed| - i
  {
    if i < |feed| {
      KeptPrefix(feed, f, i + 1);
      assert feed[..i + 1][..i] == feed[..i];
    } else {
      assert feed[..i] == feed;
    }
  }

  /** The inner for-else over the flair list: is any listed string in the flair text? */
  method AnyIn(text: string, wanted: seq<string>) returns (found: bool)
    ensures found <==> FlairMatches(text, wanted)
  {
    var k := 0;
    while k < |wanted|
      invariant 0 <= k <= |wanted|
      invariant forall j :: 0 <= j < k ==> !Contains(text, wanted[j])
    {
      if Contains(text, wanted[k]) {
        return true;
      }
      k := k + 1;
    }
    found := false;
  }

  /** The filter loop: the kept urls in feed order, cut off after Cap of them. */
  method Collect(feed: seq<Submission>, f: Filter) returns (images: seq<string>)
    ensures images == Kept(feed, f)[..if |Kept(feed, f)| < Cap then |Kept(feed, f)| else Cap]
    ensures |images| <= Cap
  {
    images := [];
    var i := 0;
    while i < |feed|
      invariant 0 <= i <= |feed|
      invariant images == Kept(feed[..i], f)
      invariant |images| <= Cap
    {
      if |images| > Cap - 1 {
        break;
      }
      var s := feed[i];
      assert feed[..i + 1][..i] == feed[..i];
      if s.isSelf {
        i := i + 1;
        continue;
      }
      if s.spoiler != f.spoiler.GetOr(s.spoiler) {
        i := i + 1;
        continue;
      }
      if s.over18 != f.nsfw.GetOr(s.over18) {
        i := i + 1;
        continue;
      }
      if f.flair.Some? {
        if s.flair.None? {
          i := i + 1;
          continue;
        }
        var matches := AnyIn(s.flair.value, f.flair.value);
        if !matches {
          i := i + 1;
          continue;
        }
      }
      images := images + [s.url];
      i := i + 1;
    }
    KeptPrefix(feed, f, i);
    if i == |feed| {
      assert feed[..i] == feed;
    }
  }

  /**
   * get_posts: an unknown subreddit fails, so does asking for safe content
   * from an NSFW one; otherwise the answer is the collected url at the
   * random position `pick`, or the no-images text.
   */
  method GetPosts(sub: Subreddit, f: Filter, pick: nat) returns (r: Result<string, Error>)
    ensures !sub.found <==> r == Failure(NotFound)
    ensures r == Failure(NsfwOnly) <==> sub.found && f.nsfw == Some(false) && sub.over18
    ensures r.Success? && Kept(sub.top, f) == [] ==> r.value == NoImages
    ensures r.Success? && Kept(sub.top, f) != [] ==>
      exists k :: 0 <= k < Cap && k < |Kept(sub.top, f)| && r.value == Kept(sub.top, f)[k]
  {
    if !sub.found {
      return Failure(NotFound);
    }
    if f.nsfw == Some(false) && sub.over18 {
      return Failure(NsfwOnly);
    }
    var images := Collect(sub.top, f);
    if images != [] {
      var k := pick % |images|;
      r := Success(images[k]);
      assert r.value == Kept(sub.top, f)[k];
    } else {
      r := Success(NoImages);
    }
  }
}
