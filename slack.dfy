/**
 * The "slack questions" command: posting every tracked question that has
 * no Slack message yet, and refreshing the message of every linked
 * question, retiring the questions that fell out of the watched window.
 * Slack is a sink: each pass returns the messages it sent, and what Slack
 * answers to the k-th new post is a parameter of the post pass.
 */
module SlackPasses {
  import opened Text
  import opened StackExchange
  import opened LocalStore
  import opened Settings

  const MsgNotAnswered := "#B7E0ED"
  const MsgIsAnswered := "#30AC1F"
  const ThumbUp := ":+1:"
  const ThumbDown := ":-1:"
  /** The footer icon used when the team's icon set has no usable 132px image. */
  const FallbackIcon := "https://aframe.io/images/aframe-logo-192.png"
  const TeamIconKey := "image_132"
  const FooterText := "slackoverflow"

  /** The attachment colour: the answered colour exactly for answered questions. */
  function Colour(answered: bool): (c: string)
    ensures c == MsgIsAnswered <==> answered
    ensures c == MsgNotAnswered <==> !answered
  {
    if answered then MsgIsAnswered else MsgNotAnswered
  }

  /** The score emoji: thumbs down exactly for a negative score. */
  function Thumb(score: int): (t: string)
    ensures t == ThumbDown <==> score < 0
    ensures t == ThumbUp <==> score >= 0
  {
    if score < 0 then ThumbDown else ThumbUp
  }

  /** The team's 132px icon when the icon set holds it as a string, else the fallback. */
  function FooterIcon(icons: map<string, Value>): (r: string)
    ensures TeamIconKey in icons && icons[TeamIconKey].StrVal? ==> r == icons[TeamIconKey].s
    ensures !(TeamIconKey in icons && icons[TeamIconKey].StrVal?) ==> r == FallbackIcon
  {
    if TeamIconKey in icons && icons[TeamIconKey].StrVal? then icons[TeamIconKey].s else FallbackIcon
  }

  /**
   * The words of a question's statistics line: answer count, comment
   * count, the score emoji, the score and the view count, each behind its
   * emoji label.
   */
  function StatsFields(q: QuestionRow): seq<string> {
    [":pencil:", IntToString(q.answerCount), ":speech_balloon:", IntToString(q.commentCount),
     Thumb(q.score), IntToString(q.score), ":eye:", IntToString(q.viewCount)]
  }

  /** The statistics line of an attachment: its words separated by single spaces, as the format string lays them out. */
  function StatsText(q: QuestionRow): string {
    Join(StatsFields(q), " ")
  }

  lemma NoSpaceInInt(i: int)
    ensures ' ' !in IntToString(i)
  {
    var s := IntToString(i);
    if i < 0 {
      assert forall j :: 1 <= j < |s| ==> s[j] == NatToString(-i)[j - 1];
    }
  }

  /**
   * The statistics line loses nothing: split at its spaces it gives back
   * the answer, comment and view counts, the score and its emoji.
   */
  lemma StatsReadBack(q: QuestionRow)
    ensures Split(StatsText(q), ' ') == StatsFields(q)
    ensures ParseInt(Split(StatsText(q), ' ')[1]) == q.answerCount
    ensures ParseInt(Split(StatsText(q), ' ')[3]) == q.commentCount
    ensures Split(StatsText(q), ' ')[4] == Thumb(q.score)
    ensures ParseInt(Split(StatsText(q), ' ')[5]) == q.score
    ensures ParseInt(Split(StatsText(q), ' ')[7]) == q.viewCount
  {
    var f := StatsFields(q);
    NoSpaceInInt(q.answerCount);
    NoSpaceInInt(q.commentCount);
    NoSpaceInInt(q.score);
    NoSpaceInInt(q.viewCount);
    SplitJoin(f, ' ');
    ParseIntToString(q.answerCount);
    ParseIntToString(q.commentCount);
    ParseIntToString(q.score);
    ParseIntToString(q.viewCount);
  }

  datatype Attachment = Attachment(
    fallback: string, title: string, titleLink: string, color: string,
    text: string, footer: string, footerIcon: string)

  /** The attachment of a question still watched: headline, colour, statistics and footer. */
  function FullAttachment(q: QuestionRow, icons: map<string, Value>): Attachment {
    Attachment(q.title, q.title, q.shareLink, Colour(q.isAnswered), StatsText(q), FooterText, FooterIcon(icons))
  }

  /** The attachment a retired question's message is left with: headline and colour only. */
  function StrippedAttachment(q: QuestionRow): Attachment {
    Attachment(q.title, q.title, q.shareLink, Colour(q.isAnswered), "", "", "")
  }

  /**
   * A retired question's message keeps the headline, link and colour of
   * the full one and drops the statistics and footer, whatever the icons.
   */
  lemma StrippedKeepsHeadline(q: QuestionRow, icons: map<string, Value>)
    ensures var full, stripped := FullAttachment(q, icons), StrippedAttachment(q);
      && stripped == full.(text := "", footer := "", footerIcon := "")
      && stripped.title == q.title && stripped.titleLink == q.shareLink
      && (stripped.color == MsgIsAnswered <==> q.isAnswered)
      && Split(full.text, ' ') == StatsFields(q)
  {
    StatsReadBack(q);
  }

  /** The options of a new post that slackPostNewQuestions sets. */
  datatype PostParams = PostParams(
    parse: string, linkNames: int, unfurlLinks: bool, unfurlMedia: bool, username: string,
    asUser: bool, iconUrl: string, markdown: bool, escapeText: bool, attachments: seq<Attachment>)

  /** A new message: channel, text and options. */
  datatype Post = Post(channel: string, text: string, params: PostParams)

  /** An update of the message with timestamp ts in channel. */
  datatype Update = Update(channel: string, ts: string, asUser: bool, attachments: seq<Attachment>)

  /** What Slack answers to a post: the channel and timestamp of the new message, or an error. */
  datatype PostReply = Posted(channel: string, ts: string) | PostFailed

  /** The message that announces q, asked by user, in the configured channel. */
  function NewPost(cfg: Config, q: QuestionRow, user: UserRow): (p: Post)
    ensures p.channel == cfg.channel && p.text == ""
    ensures p.params.username == user.displayName + " asked on " + q.site + ":"
    ensures p.params.iconUrl == user.profileImage && !p.params.asUser
    ensures p.params.attachments == [FullAttachment(q, cfg.teamIcon)]
  {
    Post(cfg.channel, "",
      PostParams("full", 1, true, false, user.displayName + " asked on " + q.site + ":", false,
                 user.profileImage, true, true, [FullAttachment(q, cfg.teamIcon)]))
  }

  /** Slack's answer to the k-th post; there is none past the ones given. */
  function ReplyAt(replies: seq<PostReply>, k: nat): PostReply {
    if k < |replies| then replies[k] else PostFailed
  }

  // ---------------------------------------------------------------------------
  // Posting new questions
  // ---------------------------------------------------------------------------

  /** The link table, the posts sent so far, and whether a failed post ended the pass. */
  datatype PostState = PostState(links: seq<SlackLink>, sent: seq<Post>, stopped: bool)

  /**
   * One tracked question of slackPostNewQuestions: a question whose QID
   * finds a link is skipped; otherwise it is posted, and the reply either
   * adds its link or ends the pass.
   */
  function PostStep(st: PostState, q: QuestionRow, users: map<int, UserRow>, cfg: Config,
                    replies: seq<PostReply>): PostState
  {
    if st.stopped || FirstLink(st.links, q.qid).qid != 0 then st
    else
      var post := NewPost(cfg, q, UserIn(users, q.uid));
      match ReplyAt(replies, |st.sent|)
      case PostFailed => PostState(st.links, st.sent + [post], true)
      case Posted(channel, ts) => PostState(st.links + [SlackLink(q.qid, channel, ts)], st.sent + [post], false)
  }

  /** The pass over the tracked questions, in their order. */
  function PostRun(st: PostState, tracked: seq<QuestionRow>, users: map<int, UserRow>, cfg: Config,
                   replies: seq<PostReply>): PostState
    decreases |tracked|
  {
    if tracked == [] then st
    else PostStep(PostRun(st, tracked[..|tracked| - 1], users, cfg, replies), tracked[|tracked| - 1], users, cfg, replies)
  }

  lemma PostRunLast(st: PostState, tracked: seq<QuestionRow>, i: nat, users: map<int, UserRow>, cfg: Config,
                    replies: seq<PostReply>)
    requires i < |tracked|
    ensures PostRun(st, tracked[..i + 1], users, cfg, replies)
         == PostStep(PostRun(st, tracked[..i], users, cfg, replies), tracked[i], users, cfg, replies)
  {
    assert tracked[..i + 1][..i] == tracked[..i];
  }

  /** Once a post has failed, the rest of the pass changes nothing. */
  lemma {:induction false} PostStoppedStays(st: PostState, tracked: seq<QuestionRow>, users: map<int, UserRow>,
                                            cfg: Config, replies: seq<PostReply>)
    requires st.stopped
    ensures PostRun(st, tracked, users, cfg, replies) == st
    decreases |tracked|
  {
    if tracked != [] {
      PostStoppedStays(st, tracked[..|tracked| - 1], users, cfg, replies);
    }
  }

  /** Once the pass over a prefix has stopped, the rest of the questions change nothing. */
  lemma {:induction false} PostStoppedPrefix(st: PostState, tracked: seq<QuestionRow>, i: nat, users: map<int, UserRow>,
                                             cfg: Config, replies: seq<PostReply>)
    requires i <= |tracked|
    requires PostRun(st, tracked[..i], users, cfg, replies).stopped
    ensures PostRun(st, tracked, users, cfg, replies) == PostRun(st, tracked[..i], users, cfg, replies)
    decreases |tracked|
  {
    if i < |tracked| {
      var front := tracked[..|tracked| - 1];
      assert front[..i] == tracked[..i];
      PostStoppedPrefix(st, front, i, users, cfg, replies);
    } else {
      assert tracked[..i] == tracked;
    }
  }

  /** The pass only appends: the links and posts it started with stay in front, a stopped pass stays stopped. */
  lemma {:induction false} PostRunExtends(st: PostState, tracked: seq<QuestionRow>, users: map<int, UserRow>,
                                          cfg: Config, replies: seq<PostReply>)
    ensures var r := PostRun(st, tracked, users, cfg, replies);
      && |st.links| <= |r.links| && r.links[..|st.links|] == st.links
      && |st.sent| <= |r.sent| && r.sent[..|st.sent|] == st.sent
      && (st.stopped ==> r.stopped)
    decreases |tracked|
  {
    if tracked != [] {
      var prev := PostRun(st, tracked[..|tracked| - 1], users, cfg, replies);
      PostRunExtends(st, tracked[..|tracked| - 1], users, cfg, replies);
      var r := PostStep(prev, tracked[|tracked| - 1], users, cfg, replies);
      assert r.links[..|prev.links|] == prev.links;
      assert r.sent[..|prev.sent|] == prev.sent;
      assert r.links[..|st.links|] == prev.links[..|st.links|];
      assert r.sent[..|st.sent|] == prev.sent[..|st.sent|];
    }
  }

  /**
   * Every post was answered by a link except, in a stopped pass, the last
   * one, whose failure ended the pass.
   */
  lemma {:induction false} PostRunCount(st: PostState, tracked: seq<QuestionRow>, users: map<int, UserRow>,
                                        cfg: Config, replies: seq<PostReply>)
    requires !st.stopped
    ensures var r := PostRun(st, tracked, users, cfg, replies);
      |r.sent| - |st.sent| == |r.links| - |st.links| + (if r.stopped then 1 else 0)
    decreases |tracked|
  {
    if tracked != [] {
      PostRunCount(st, tracked[..|tracked| - 1], users, cfg, replies);
    }
  }

  /**
   * No question is posted twice: a link the pass adds for a nonzero QID
   * is the only link of that QID up to it, whether stored before or added.
   */
  lemma {:induction false} PostRunNoRepost(st: PostState, tracked: seq<QuestionRow>, users: map<int, UserRow>,
                                           cfg: Config, replies: seq<PostReply>)
    ensures var r := PostRun(st, tracked, users, cfg, replies);
      forall i, j :: 0 <= i < j < |r.links| && |st.links| <= j && r.links[j].qid != 0 ==> r.links[i].qid != r.links[j].qid
    decreases |tracked|
  {
    if tracked != [] {
      var prev := PostRun(st, tracked[..|tracked| - 1], users, cfg, replies);
      PostRunNoRepost(st, tracked[..|tracked| - 1], users, cfg, replies);
      PostRunExtends(st, tracked[..|tracked| - 1], users, cfg, replies);
      var q := tracked[|tracked| - 1];
      var r := PostStep(prev, q, users, cfg, replies);
      if |r.links| > |prev.links| {
        assert FirstLink(prev.links, q.qid).qid == 0;
        assert r.links == prev.links + [r.links[|prev.links|]];
        assert r.links[|prev.links|].qid == q.qid;
        if q.qid != 0 {
          assert forall i :: 0 <= i < |prev.links| ==> prev.links[i].qid != q.qid;
        }
      }
    }
  }

  /** Every link the pass adds belongs to a tracked question. */
  lemma {:induction false} PostRunTracked(st: PostState, tracked: seq<QuestionRow>, users: map<int, UserRow>,
                                          cfg: Config, replies: seq<PostReply>)
    ensures var r := PostRun(st, tracked, users, cfg, replies);
      forall j :: |st.links| <= j < |r.links| ==> exists i :: 0 <= i < |tracked| && tracked[i].qid == r.links[j].qid
    decreases |tracked|
  {
    if tracked != [] {
      var front := tracked[..|tracked| - 1];
      var prev := PostRun(st, front, users, cfg, replies);
      PostRunTracked(st, front, users, cfg, replies);
      PostRunExtends(st, front, users, cfg, replies);
      var r := PostStep(prev, tracked[|tracked| - 1], users, cfg, replies);
      forall j | |st.links| <= j < |r.links| ensures exists i :: 0 <= i < |tracked| && tracked[i].qid == r.links[j].qid {
        if j < |prev.links| {
          var i :| 0 <= i < |front| && front[i].qid == prev.links[j].qid;
          assert tracked[i] == front[i];
        } else {
          assert r.links[j].qid == tracked[|tracked| - 1].qid;
        }
      }
    }
  }

  /** Every question in tracked has a link in links. */
  ghost predicate AllLinked(links: seq<SlackLink>, tracked: seq<QuestionRow>) {
    forall i :: 0 <= i < |tracked| ==> exists l :: l in links && l.qid == tracked[i].qid
  }

  /** A pass no post failure ended leaves every tracked question linked. */
  lemma {:induction false} PostRunCovers(st: PostState, tracked: seq<QuestionRow>, users: map<int, UserRow>,
                                         cfg: Config, replies: seq<PostReply>)
    ensures var r := PostRun(st, tracked, users, cfg, replies);
      !r.stopped ==> AllLinked(r.links, tracked)
    decreases |tracked|
  {
    if tracked != [] {
      var front := tracked[..|tracked| - 1];
      var prev := PostRun(st, front, users, cfg, replies);
      var q := tracked[|tracked| - 1];
      PostRunCovers(st, front, users, cfg, replies);
      if !PostStep(prev, q, users, cfg, replies).stopped {
        PostStepCovers(prev, tracked, users, cfg, replies);
      }
    }
  }

  /** A step that does not stop keeps the earlier questions linked and links its own. */
  lemma PostStepCovers(prev: PostState, t: seq<QuestionRow>, users: map<int, UserRow>,
                       cfg: Config, replies: seq<PostReply>)
    requires t != []
    requires !PostStep(prev, t[|t| - 1], users, cfg, replies).stopped
    requires AllLinked(prev.links, t[..|t| - 1])
    ensures AllLinked(PostStep(prev, t[|t| - 1], users, cfg, replies).links, t)
  {
    var front, q := t[..|t| - 1], t[|t| - 1];
    var r := PostStep(prev, q, users, cfg, replies);
    assert forall l :: l in prev.links ==> l in r.links;
    forall i | 0 <= i < |t| ensures exists l :: l in r.links && l.qid == t[i].qid {
      if i < |front| {
        assert t[i] == front[i];
        var l :| l in prev.links && l.qid == front[i].qid;
        assert l in r.links;
      } else if FirstLink(prev.links, q.qid).qid != 0 {
        assert FirstLink(prev.links, q.qid) in r.links;
      } else {
        assert r.links[|r.links| - 1].qid == q.qid;
      }
    }
  }

  /**
   * One iteration of slackPostNewQuestions: look up the question's link;
   * without one, post it and either store the returned link or report the
   * failure that ends the pass.
   */
  method PostOne(db: Database, cfg: Config, replies: seq<PostReply>, q: QuestionRow, sent0: seq<Post>)
    returns (sent: seq<Post>, stopped: bool)
    requires db.Valid()
    modifies db
    ensures db.Valid() && db.questions == old(db.questions) && db.users == old(db.users)
    ensures PostState(db.links, sent, stopped) == PostStep(PostState(old(db.links), sent0, false), q, db.users, cfg, replies)
  {
    sent, stopped := sent0, false;
    var link := db.FindLink(q.qid);
    if link.qid == 0 {
      var user := db.FindUser(q.uid);
      var post := NewPost(cfg, q, user);
      sent := sent + [post];
      var reply := ReplyAt(replies, |sent0|);
      if reply.PostFailed? {
        stopped := true;
        return;
      }
      var ok := db.LinkCreate(SlackLink(q.qid, reply.channel, reply.ts), false);
    }
  }

  /**
   * slackPostNewQuestions: over the tracked questions, newest first, post
   * each one that has no link yet and store its link; the first failed
   * post ends the pass. Returns the posts sent and the tracked questions.
   */
  method SlackPostNewQuestions(db: Database, cfg: Config, replies: seq<PostReply>)
    returns (sent: seq<Post>, ghost tracked: seq<QuestionRow>)
    requires db.Valid()
    modifies db
    ensures db.Valid() && db.questions == old(db.questions) && db.users == old(db.users)
    ensures NewestByCreation(old(db.questions), cfg.questionsToWatch, tracked)
    ensures PostState(db.links, sent, PostRun(PostState(old(db.links), [], false), tracked, old(db.users), cfg, replies).stopped)
         == PostRun(PostState(old(db.links), [], false), tracked, old(db.users), cfg, replies)
  {
    var rows, count := db.QuestionsTracked(cfg.questionsToWatch);
    tracked := rows;
    ghost var st0 := PostState(db.links, [], false);
    sent := [];
    if count == 0 {
      return;
    }
    var i := 0;
    var stopped := false;
    while i < |rows| && !stopped
      invariant 0 <= i <= |rows|
      invariant db.Valid() && db.questions == old(db.questions) && db.users == old(db.users)
      invariant PostState(db.links, sent, stopped) == PostRun(st0, tracked[..i], db.users, cfg, replies)
    {
      PostRunLast(st0, tracked, i, db.users, cfg, replies);
      sent, stopped := PostOne(db, cfg, replies, rows[i], sent);
      i := i + 1;
    }
    if stopped {
      PostStoppedPrefix(st0, tracked, i, db.users, cfg, replies);
    } else {
      assert tracked[..i] == tracked;
    }
  }

  // ---------------------------------------------------------------------------
  // Updating posted questions
  // ---------------------------------------------------------------------------

  /**
   * The question and link tables, the updates sent, the count of links
   * whose question was found, and the QIDs that got the full update.
   */
  datatype RefreshState = RefreshState(
    questions: map<int, QuestionRow>, links: seq<SlackLink>, sent: seq<Update>, track: int, kept: set<int>)

  /**
   * One link of slackUpdateQuestions: a link whose question is not found
   * is skipped; the first n found get the full update; every later one
   * gets the stripped update, and its question and links are deleted.
   */
  function RefreshStep(st: RefreshState, ql: SlackLink, n: int, cfg: Config): RefreshState {
    var q := QuestionIn(st.questions, ql.qid);
    if q.qid == 0 then st
    else if st.track + 1 <= n then
      RefreshState(st.questions, st.links, st.sent + [Update(cfg.channel, ql.ts, false, [FullAttachment(q, cfg.teamIcon)])],
                   st.track + 1, st.kept + {q.qid})
    else
      RefreshState(st.questions - {q.qid}, RemoveLinks(st.links, ql.qid),
                   st.sent + [Update(cfg.channel, ql.ts, false, [StrippedAttachment(q)])], st.track + 1, st.kept)
  }

  /** The pass over the links, in the order they were read. */
  function RefreshRun(st: RefreshState, order: seq<SlackLink>, n: int, cfg: Config): RefreshState
    decreases |order|
  {
    if order == [] then st
    else RefreshStep(RefreshRun(st, order[..|order| - 1], n, cfg), order[|order| - 1], n, cfg)
  }

  lemma RefreshRunLast(st: RefreshState, order: seq<SlackLink>, i: nat, n: int, cfg: Config)
    requires i < |order|
    ensures RefreshRun(st, order[..i + 1], n, cfg) == RefreshStep(RefreshRun(st, order[..i], n, cfg), order[i], n, cfg)
  {
    assert order[..i + 1][..i] == order[..i];
  }

  /** The QIDs of the links in order whose question is still stored. */
  function LiveQids(order: seq<SlackLink>, questions: map<int, QuestionRow>): set<int> {
    set i | 0 <= i < |order| && order[i].qid in questions && order[i].qid != 0 :: order[i].qid
  }

  /**
   * What the pass keeps: it only deletes question rows; a deleted question
   * has no link left; the kept QIDs stay within the window of n; and every
   * link read whose question survives with a nonzero QID is a kept one.
   */
  ghost predicate RefreshInvariant(st0: RefreshState, st: RefreshState, order: seq<SlackLink>, n: int) {
    && st.questions.Keys <= st0.questions.Keys
    && (forall k :: k in st.questions ==> st.questions[k] == st0.questions[k])
    && (forall k, i :: k in st0.questions && k !in st.questions && 0 <= i < |st.links| ==> st.links[i].qid != k)
    && 0 <= st.track && |st.kept| <= st.track && (|st.kept| <= n || st.kept == {})
    && (forall i :: 0 <= i < |order| && order[i].qid in st.questions && order[i].qid != 0 ==> order[i].qid in st.kept)
  }

  lemma RefreshStepKeeps(st0: RefreshState, st: RefreshState, order: seq<SlackLink>, ql: SlackLink, n: int, cfg: Config)
    requires Keyed(st0.questions)
    requires RefreshInvariant(st0, st, order, n)
    ensures RefreshInvariant(st0, RefreshStep(st, ql, n, cfg), order + [ql], n)
  {
    var r := RefreshStep(st, ql, n, cfg);
    var q := QuestionIn(st.questions, ql.qid);
    var order' := order + [ql];
    if q.qid != 0 {
      assert q.qid == ql.qid;
      if st.track + 1 <= n {
        assert |r.kept| <= |st.kept| + 1;
      } else {
        forall k, i | k in st0.questions && k !in r.questions && 0 <= i < |r.links| ensures r.links[i].qid != k {
          assert r.links[i] in RemoveLinks(st.links, ql.qid);
          var j :| 0 <= j < |st.links| && st.links[j] == r.links[i];
        }
      }
    } else {
      assert ql.qid !in st.questions || ql.qid == 0;
    }
    forall i | 0 <= i < |order'| && order'[i].qid in r.questions && order'[i].qid != 0 ensures order'[i].qid in r.kept {
      if i < |order| {
        assert order'[i] == order[i];
      }
    }
  }

  lemma {:induction false} RefreshRunKeeps(st0: RefreshState, order: seq<SlackLink>, n: int, cfg: Config)
    requires Keyed(st0.questions)
    requires RefreshInvariant(st0, st0, [], n)
    ensures RefreshInvariant(st0, RefreshRun(st0, order, n, cfg), order, n)
    decreases |order|
  {
    if order != [] {
      var front := order[..|order| - 1];
      RefreshRunKeeps(st0, front, n, cfg);
      RefreshStepKeeps(st0, RefreshRun(st0, front, n, cfg), front, order[|order| - 1], n, cfg);
      assert front + [order[|order| - 1]] == order;
    }
  }

  /**
   * The pass enforces the watch window: afterwards at most n of the
   * questions it read a link for are still stored, at most n of the links
   * it read (duplicates counted apart) still lead to a stored question, and
   * a question it deleted has no link left. When the links were read as a
   * permutation of the link table, at most n rows of the table left behind
   * still lead to a stored question.
   */
  lemma RefreshBound(questions: map<int, QuestionRow>, links: seq<SlackLink>, order: seq<SlackLink>, n: int, cfg: Config)
    requires Keyed(questions)
    ensures var r := RefreshRun(RefreshState(questions, links, [], 0, {}), order, n, cfg);
      && |LiveQids(order, r.questions)| <= (if n < 0 then 0 else n)
      && LiveCount(order, r.questions) <= (if n < 0 then 0 else n)
      && (multiset(order) == multiset(links) ==> LiveCount(r.links, r.questions) <= (if n < 0 then 0 else n))
      && r.questions.Keys <= questions.Keys
      && (forall k :: k in r.questions ==> r.questions[k] == questions[k])
      && (forall k, i :: k in questions && k !in r.questions && 0 <= i < |r.links| ==> r.links[i].qid != k)
  {
    var st0 := RefreshState(questions, links, [], 0, {});
    RefreshRunKeeps(st0, order, n, cfg);
    var r := RefreshRun(st0, order, n, cfg);
    assert LiveQids(order, r.questions) <= r.kept;
    SubsetCard(LiveQids(order, r.questions), r.kept);
    RefreshLiveRun(st0, order, n, cfg);
    RefreshLinksShrink(st0, order, n, cfg, r.questions);
    if multiset(order) == multiset(links) {
      LiveCountPermutation(order, links, r.questions);
    }
  }

  /**
   * The number of links in s that lead to a stored question with a nonzero
   * QID: the size of the set of such positions of s.
   */
  function LiveCount(s: seq<SlackLink>, questions: map<int, QuestionRow>): (c: nat)
    ensures c <= |s|
  {
    if s == [] then 0
    else (if s[0].qid in questions && s[0].qid != 0 then 1 else 0) + LiveCount(s[1..], questions)
  }

  lemma {:induction false} LiveCountAppend(a: seq<SlackLink>, b: seq<SlackLink>, questions: map<int, QuestionRow>)
    ensures LiveCount(a + b, questions) == LiveCount(a, questions) + LiveCount(b, questions)
    decreases |a|
  {
    if a != [] {
      assert (a + b)[1..] == a[1..] + b;
      LiveCountAppend(a[1..], b, questions);
    } else {
      assert a + b == b;
    }
  }

  /** Fewer stored questions, no more live links. */
  lemma {:induction false} LiveCountShrink(s: seq<SlackLink>, questions: map<int, QuestionRow>, fewer: map<int, QuestionRow>)
    requires fewer.Keys <= questions.Keys
    ensures LiveCount(s, fewer) <= LiveCount(s, questions)
    decreases |s|
  {
    if s != [] {
      LiveCountShrink(s[1..], questions, fewer);
    }
  }

  /** Deleting the links of a QID leaves no more live links. */
  lemma {:induction false} LiveCountRemove(s: seq<SlackLink>, qid: int, questions: map<int, QuestionRow>)
    ensures LiveCount(RemoveLinks(s, qid), questions) <= LiveCount(s, questions)
    decreases |s|
  {
    if s != [] {
      LiveCountRemove(s[1..], qid, questions);
      if s[0].qid != qid {
        assert ([s[0]] + RemoveLinks(s[1..], qid))[1..] == RemoveLinks(s[1..], qid);
      }
    }
  }

  /** Taking out the element at j removes exactly one occurrence of it, and its share of the live count. */
  lemma RemoveAtCount(b: seq<SlackLink>, j: nat, questions: map<int, QuestionRow>)
    requires j < |b|
    ensures multiset(b[..j] + b[j + 1..]) == multiset(b) - multiset{b[j]}
    ensures LiveCount(b, questions)
         == (if b[j].qid in questions && b[j].qid != 0 then 1 else 0) + LiveCount(b[..j] + b[j + 1..], questions)
  {
    assert b == b[..j] + ([b[j]] + b[j + 1..]);
    LiveCountAppend(b[..j], [b[j]] + b[j + 1..], questions);
    LiveCountAppend(b[..j], b[j + 1..], questions);
    assert ([b[j]] + b[j + 1..])[1..] == b[j + 1..];
  }

  /** The live count depends only on which links occur how often, not on their order. */
  lemma {:induction false} LiveCountPermutation(a: seq<SlackLink>, b: seq<SlackLink>, questions: map<int, QuestionRow>)
    requires multiset(a) == multiset(b)
    ensures LiveCount(a, questions) == LiveCount(b, questions)
    decreases |a|
  {
    if a == [] {
      assert |b| == |multiset(b)| == 0;
    } else {
      assert a[0] in multiset(b);
      var j :| 0 <= j < |b| && b[j] == a[0];
      assert a == [a[0]] + a[1..];
      RemoveAtCount(b, j, questions);
      LiveCountPermutation(a[1..], b[..j] + b[j + 1..], questions);
    }
  }

  /**
   * The window as a count of links: the links read so far that still lead
   * to a stored question took distinct ranks, none beyond n.
   */
  ghost predicate LiveWithin(st: RefreshState, order: seq<SlackLink>, n: int) {
    var c := LiveCount(order, st.questions);
    c <= st.track && (c <= n || c == 0)
  }

  lemma RefreshLiveStep(st: RefreshState, order: seq<SlackLink>, ql: SlackLink, n: int, cfg: Config)
    requires Keyed(st.questions)
    requires LiveWithin(st, order, n)
    ensures LiveWithin(RefreshStep(st, ql, n, cfg), order + [ql], n)
  {
    var r := RefreshStep(st, ql, n, cfg);
    var q := QuestionIn(st.questions, ql.qid);
    LiveCountAppend(order, [ql], r.questions);
    assert [ql][1..] == [];
    if q.qid != 0 && st.track + 1 > n {
      LiveCountShrink(order, st.questions, r.questions);
    }
  }

  lemma {:induction false} RefreshLiveRun(st0: RefreshState, order: seq<SlackLink>, n: int, cfg: Config)
    requires Keyed(st0.questions)
    requires 0 <= st0.track
    ensures LiveWithin(RefreshRun(st0, order, n, cfg), order, n)
    decreases |order|
  {
    if order != [] {
      var front, ql := order[..|order| - 1], order[|order| - 1];
      var st := RefreshRun(st0, front, n, cfg);
      RefreshLiveRun(st0, front, n, cfg);
      RefreshShrinks(st0, front, n, cfg);
      KeyedSub(st0.questions, st.questions);
      RefreshLiveStep(st, front, ql, n, cfg);
      assert front + [ql] == order;
    }
  }

  lemma KeyedSub(questions: map<int, QuestionRow>, fewer: map<int, QuestionRow>)
    requires Keyed(questions)
    requires fewer.Keys <= questions.Keys && forall k :: k in fewer ==> fewer[k] == questions[k]
    ensures Keyed(fewer)
  {
  }

  /** The pass only deletes link rows, so it leaves no more live links than it found. */
  lemma {:induction false} RefreshLinksShrink(st: RefreshState, order: seq<SlackLink>, n: int, cfg: Config,
                                              questions: map<int, QuestionRow>)
    ensures LiveCount(RefreshRun(st, order, n, cfg).links, questions) <= LiveCount(st.links, questions)
    decreases |order|
  {
    if order != [] {
      var front := order[..|order| - 1];
      RefreshLinksShrink(st, front, n, cfg, questions);
      LiveCountRemove(RefreshRun(st, front, n, cfg).links, order[|order| - 1].qid, questions);
    }
  }

  lemma SubsetCard(a: set<int>, b: set<int>)
    requires a <= b
    ensures |a| <= |b|
  {
    assert b == a + (b - a);
  }

  /** The pass only deletes question rows. */
  lemma {:induction false} RefreshShrinks(st: RefreshState, order: seq<SlackLink>, n: int, cfg: Config)
    ensures var r := RefreshRun(st, order, n, cfg);
      r.questions.Keys <= st.questions.Keys && forall k :: k in r.questions ==> r.questions[k] == st.questions[k]
    decreases |order|
  {
    if order != [] {
      RefreshShrinks(st, order[..|order| - 1], n, cfg);
    }
  }

  /** Questions whose QID no link read names are left alone. */
  lemma {:induction false} RefreshUntouched(st: RefreshState, order: seq<SlackLink>, n: int, cfg: Config, k: int)
    requires Keyed(st.questions)
    requires k in st.questions
    requires forall i :: 0 <= i < |order| ==> order[i].qid != k
    ensures k in RefreshRun(st, order, n, cfg).questions
    ensures RefreshRun(st, order, n, cfg).questions[k] == st.questions[k]
    decreases |order|
  {
    if order != [] {
      RefreshUntouched(st, order[..|order| - 1], n, cfg, k);
      RefreshShrinks(st, order[..|order| - 1], n, cfg);
    }
  }

  /**
   * With a window of at least as many questions as there are links, the
   * pass retires nothing: both tables are as they were, and one update
   * goes out per link whose question is found.
   */
  lemma {:induction false} RefreshWideWindow(st: RefreshState, order: seq<SlackLink>, n: int, cfg: Config)
    requires 0 <= st.track && st.track + |order| <= n
    ensures var r := RefreshRun(st, order, n, cfg);
      && r.questions == st.questions && r.links == st.links
      && st.track <= r.track <= st.track + |order|
      && |r.sent| - |st.sent| == r.track - st.track
    decreases |order|
  {
    if order != [] {
      RefreshWideWindow(st, order[..|order| - 1], n, cfg);
    }
  }

  /** Exactly one update goes out per link whose question is found. */
  lemma {:induction false} RefreshCount(st: RefreshState, order: seq<SlackLink>, n: int, cfg: Config)
    ensures var r := RefreshRun(st, order, n, cfg);
      && st.track <= r.track <= st.track + |order|
      && |r.sent| - |st.sent| == r.track - st.track
    decreases |order|
  {
    if order != [] {
      RefreshCount(st, order[..|order| - 1], n, cfg);
    }
  }

  /**
   * One iteration of slackUpdateQuestions: look the link's question up;
   * if found, count it and send the full update within the window, or
   * else the stripped update followed by deleting the question and its links.
   */
  method RefreshOne(db: Database, cfg: Config, ql: SlackLink, sent0: seq<Update>, track0: int, ghost kept0: set<int>)
    returns (sent: seq<Update>, track: int, ghost kept: set<int>)
    requires db.Valid()
    modifies db
    ensures db.Valid() && db.users == old(db.users)
    ensures RefreshState(db.questions, db.links, sent, track, kept)
         == RefreshStep(RefreshState(old(db.questions), old(db.links), sent0, track0, kept0), ql, cfg.questionsToWatch, cfg)
  {
    sent, track, kept := sent0, track0, kept0;
    var q := db.FindQuestion(ql.qid);
    if q.qid == 0 {
      return;
    }
    track := track + 1;
    if track <= cfg.questionsToWatch {
      sent := sent + [Update(cfg.channel, ql.ts, false, [FullAttachment(q, cfg.teamIcon)])];
      kept := kept + {q.qid};
    } else {
      sent := sent + [Update(cfg.channel, ql.ts, false, [StrippedAttachment(q)])];
      var deleted := db.QuestionDelete(q.qid, false);
      var unlinked := db.LinkDelete(ql.qid, false);
    }
  }

  /**
   * slackUpdateQuestions: over every link, by message timestamp
   * descending, refresh the messages of the first questionsToWatch found
   * questions and retire the rest. Returns the updates sent and the order read.
   */
  method SlackUpdateQuestions(db: Database, cfg: Config) returns (sent: seq<Update>, ghost order: seq<SlackLink>)
    requires db.Valid()
    modifies db
    ensures db.Valid() && db.users == old(db.users)
    ensures ByTsDescending(old(db.links), order)
    ensures var r := RefreshRun(RefreshState(old(db.questions), old(db.links), [], 0, {}), order, cfg.questionsToWatch, cfg);
      db.questions == r.questions && db.links == r.links && sent == r.sent
  {
    var all, count := db.LinksGetAll();
    order := all;
    ghost var st0 := RefreshState(db.questions, db.links, [], 0, {});
    sent := [];
    if count == 0 {
      return;
    }
    var track := 0;
    ghost var kept: set<int> := {};
    var i := 0;
    while i < |all|
      invariant 0 <= i <= |all|
      invariant db.Valid() && db.users == old(db.users)
      invariant RefreshState(db.questions, db.links, sent, track, kept) == RefreshRun(st0, order[..i], cfg.questionsToWatch, cfg)
    {
      RefreshRunLast(st0, order, i, cfg.questionsToWatch, cfg);
      sent, track, kept := RefreshOne(db, cfg, all[i], sent, track, kept);
      i := i + 1;
    }
    assert order[..i] == order;
  }
}
