/**
 * The wpDiscuz user's states (wordpress_wpdiscuz/states.py): the daily-capped activity
 * selection, the posts page that pages through the blog up to a maximum page, the close
 * choice, and the post page whose rating, voting and reply transitions depend on the post's
 * rating state and on the comments other authors wrote. The page readings are parameters.
 */
module WpdiscuzStates {
  import opened Wrappers
  import opened Engine
  import opened CoreStates
  import DailyCap
  import opened WpdiscuzActions
  import opened Strings
  import opened WpdiscuzConfig

  // ---------------------------------------------------------------- activity selection

  /** The selection between the wpDiscuz activity (0.6) and idling (0.4), at most 10 visits a day. */
  function NewSelection(today: int): (s: DailyCap.Selection)
    ensures s.Valid() && s.count == 0 && s.day == today && s.maxDaily == DailyCap.DefaultMaxDaily
    ensures s.base.weights == [0.6, 0.4] && Sum(s.base.weights) == 1.0
  {
    assert Sum([0.6, 0.4]) == 1.0;
    DailyCap.New(0.6, 0.4, DailyCap.DefaultMaxDaily, today)
  }

  // ---------------------------------------------------------------- posts page

  const NavOlder: nat := 0
  const NavNewer: nat := 1
  const NavPost: nat := 2
  const PostsReturn: nat := 3

  /** The posts page: an activity state and the last page the user pages to. */
  datatype PostsPage = PostsPage(act: ActivityState, maxPage: int)
  {
    predicate Valid() { act.Valid() && act.base.Size() == 4 && act.ret == PostsReturn }
  }

  /** The posts page with the defaults (older 0.15, newer 0.25, post 0.35, return 0.25, boost 1.5, max page 3). */
  function NewPostsPage(): (p: PostsPage)
    ensures p.Valid() && p.maxPage == 3 && p.act.retIncrease == 1.5
    ensures p.act.base.modifiers == [1.0, 1.0, 1.0, 1.0] && Sum(p.act.base.weights) == 1.0
  {
    PostsPage(NewActivity(PostsPageWeights, None, PostsReturn, PageRetIncrease), DefaultMaxPage)
  }

  /**
   * `PostsPage.adapt_before`: older posts are reachable iff the current page is below the
   * maximum and the page has a next link; newer posts iff it has a previous link; a post iff
   * at least one article is shown. The return modifier keeps its boost.
   */
  function PostsAdaptBefore(p: PostsPage, postsPage: int, canNext: bool, canPrevious: bool, articles: nat)
    : (r: PostsPage)
    requires p.Valid()
    ensures r.Valid() && r.maxPage == p.maxPage && r.act.retIncrease == p.act.retIncrease
    ensures r.act.base.weights == p.act.base.weights && r.act.base.initial == p.act.base.initial
    ensures r.act.base.modifiers[NavOlder] == 1.0 <==> postsPage < p.maxPage && canNext
    ensures r.act.base.modifiers[NavOlder] == 0.0 <==> !(postsPage < p.maxPage && canNext)
    ensures r.act.base.modifiers[NavNewer] == 1.0 <==> canPrevious
    ensures r.act.base.modifiers[NavNewer] == 0.0 <==> !canPrevious
    ensures r.act.base.modifiers[NavPost] == 1.0 <==> articles > 0
    ensures r.act.base.modifiers[NavPost] == 0.0 <==> articles == 0
    ensures r.act.base.modifiers[PostsReturn] == p.act.base.modifiers[PostsReturn]
  {
    var b := Enable(p.act.base, NavOlder, postsPage < p.maxPage && canNext);
    var b := Enable(b, NavNewer, canPrevious);
    var b := Enable(b, NavPost, articles > 0);
    p.(act := p.act.(base := b))
  }

  /** On the last allowed page the user never pages further back, whatever the page offers. */
  lemma NoOlderPastMaxPage(p: PostsPage, postsPage: int, canPrevious: bool, articles: nat)
    requires p.Valid() && postsPage >= p.maxPage
    ensures !Selectable(PostsAdaptBefore(p, postsPage, true, canPrevious, articles).act.base, NavOlder)
  {
    var b := PostsAdaptBefore(p, postsPage, true, canPrevious, articles).act.base;
    assert b.weights[NavOlder] * b.modifiers[NavOlder] == 0.0;
  }

  /** A page without links or articles leaves the user only the way out. */
  lemma EmptyPostsPageOnlyReturns(p: PostsPage, postsPage: int, i: nat)
    requires p.Valid() && Selectable(PostsAdaptBefore(p, postsPage, false, false, 0).act.base, i)
    ensures i == PostsReturn
  {
    var b := PostsAdaptBefore(p, postsPage, false, false, 0).act.base;
    assert b.weights[NavOlder] * b.modifiers[NavOlder] == 0.0;
    assert b.weights[NavNewer] * b.modifiers[NavNewer] == 0.0;
    assert b.weights[NavPost] * b.modifiers[NavPost] == 0.0;
  }

  /** On a fresh posts page that shows everything, every transition can be drawn. */
  lemma FreshPostsPageAllEnabled(postsPage: int, i: nat)
    requires postsPage < 3 && i < 4
    ensures Selectable(PostsAdaptBefore(NewPostsPage(), postsPage, true, true, 1).act.base, i)
  {
  }

  // ---------------------------------------------------------------- close choice

  /** `CloseChoice`: leave the page open (0.6) or close it (0.4); a plain probabilistic choice. */
  function NewCloseChoice(leaveOpenWeight: real, closeWeight: real): (s: Engine.State)
    ensures s.Valid() && s.Size() == 2 && s.weights == [leaveOpenWeight, closeWeight]
    ensures s.modifiers == s.initial == [1.0, 1.0]
  {
    Make([leaveOpenWeight, closeWeight], Ones(2))
  }

  /** The default close choice is a proper distribution. */
  lemma DefaultCloseChoice()
    ensures Sum(NewCloseChoice(0.6, 0.4).weights) == 1.0
  {
  }

  // ---------------------------------------------------------------- post page

  const RatePostT: nat := 0
  const DownVote: nat := 1
  const UpVote: nat := 2
  const Comment: nat := 3
  const Reply: nat := 4
  const PostReturn: nat := 5

  /** The post page: an activity state and the deepest comment level the user replies to. */
  datatype PostPage = PostPage(act: ActivityState, maxLevel: int)
  {
    predicate Valid() { act.Valid() && act.base.Size() == 6 && act.ret == PostReturn }
  }

  /** The post page with the defaults (rate 0.1, down 0.1, up 0.15, comment 0.25, reply 0.2, return 0.2, boost 1.5, level 3). */
  function NewPostPage(): (p: PostPage)
    ensures p.Valid() && p.maxLevel == 3 && p.act.retIncrease == 1.5
    ensures p.act.base.modifiers == Ones(6) && Sum(p.act.base.weights) == 1.0
  {
    PostPage(NewActivity(PostPageWeights, None, PostReturn, PageRetIncrease), DefaultMaxLevel)
  }

  /**
   * `PostPage.adapt_before`: up- and down-votes are possible iff another author commented,
   * rating iff the post is not rated yet, replying iff a comment by another author sits at a
   * level of at most `max_level`. Commenting and returning keep their modifiers. Reading a
   * level that the pattern matches without digits raises, and so does this step.
   */
  function PostAdaptBefore(p: PostPage, byOthers: seq<string>, rated: bool): (r: Result<PostPage>)
    requires p.Valid()
    ensures r.Failure? <==> exists c :: c in byOthers && CommentIsMaxLevel(c, p.maxLevel).Failure?
    ensures r.Success? ==>
              var m := r.value.act.base.modifiers;
              r.value.Valid() && r.value.maxLevel == p.maxLevel && r.value.act.retIncrease == p.act.retIncrease
              && r.value.act.base.weights == p.act.base.weights && r.value.act.base.initial == p.act.base.initial
              && m[UpVote] == m[DownVote] == Flag(|byOthers| > 0)
              && m[RatePostT] == Flag(!rated)
              && (m[Reply] == 1.0 <==> exists c :: c in byOthers && CommentIsMaxLevel(c, p.maxLevel) == Success(true))
              && (m[Reply] == 0.0 <==> forall c :: c in byOthers ==> CommentIsMaxLevel(c, p.maxLevel) == Success(false))
              && m[Comment] == p.act.base.modifiers[Comment]
              && m[PostReturn] == p.act.base.modifiers[PostReturn]
  {
    var votes := GetComments(byOthers, None).value;
    var b := Enable(p.act.base, UpVote, |votes| > 0);
    var b := Enable(b, DownVote, |votes| > 0);
    var b := Enable(b, RatePostT, !rated);
    match GetComments(byOthers, Some(p.maxLevel))
    case Failure(e) => Failure(e)
    case Success(replies) =>
      ReplyCandidates(byOthers, p.maxLevel, replies);
      Success(p.(act := p.act.(base := Enable(b, Reply, |replies| > 0))))
  }

  /** The comments within the level limit are non-empty iff some comment by others is within it. */
  lemma ReplyCandidates(byOthers: seq<string>, maxLevel: int, replies: seq<string>)
    requires GetComments(byOthers, Some(maxLevel)) == Success(replies)
    ensures |replies| > 0 <==> exists c :: c in byOthers && CommentIsMaxLevel(c, maxLevel) == Success(true)
    ensures |replies| == 0 <==> forall c :: c in byOthers ==> CommentIsMaxLevel(c, maxLevel) == Success(false)
  {
    if |replies| > 0 {
      assert replies[0] in replies;
    }
    forall c | c in byOthers
      ensures CommentIsMaxLevel(c, maxLevel).Success?
    {
    }
  }

  /** Whenever replying is possible, voting is too: a reply candidate is a comment by another author. */
  lemma ReplyImpliesVotes(p: PostPage, byOthers: seq<string>, rated: bool)
    requires p.Valid() && PostAdaptBefore(p, byOthers, rated).Success?
    requires PostAdaptBefore(p, byOthers, rated).value.act.base.modifiers[Reply] == 1.0
    ensures PostAdaptBefore(p, byOthers, rated).value.act.base.modifiers[UpVote] == 1.0
    ensures PostAdaptBefore(p, byOthers, rated).value.act.base.modifiers[DownVote] == 1.0
  {
  }

  /** A comment that names a level within the limit makes replying possible. */
  lemma {:induction false} ShallowCommentEnablesReply(p: PostPage, pre: string, digits: string, post: string, rated: bool)
    requires p.Valid()
    requires NoChar(pre, '\n') && NoChar(post, '\n') && NoChar(post, 'w')
    requires 0 < |digits| && forall k :: 0 <= k < |digits| ==> IsDigit(digits[k])
    requires |post| > 0 ==> !IsDigit(post[0])
    requires DigitsValue(digits) <= p.maxLevel
    ensures PostAdaptBefore(p, [pre + LevelMarker + digits + post], rated).Success?
    ensures PostAdaptBefore(p, [pre + LevelMarker + digits + post], rated).value.act.base.modifiers[Reply] == 1.0
  {
    LevelWithin(pre, digits, post, p.maxLevel);
    ShallowOnly(pre + LevelMarker + digits + post, p, rated);
  }

  lemma ShallowOnly(c: string, p: PostPage, rated: bool)
    requires p.Valid() && CommentIsMaxLevel(c, p.maxLevel) == Success(true)
    ensures PostAdaptBefore(p, [c], rated).Success?
    ensures PostAdaptBefore(p, [c], rated).value.act.base.modifiers[Reply] == 1.0
  {
    assert c in [c];
    assert forall x :: x in [c] ==> x == c;
  }
}
