/**
 * One run of the mirror (the run command's runFull): fetch new questions,
 * refresh the tracked ones, post the unposted ones to Slack, then refresh
 * or retire the posted ones. The clock, the API's answers and Slack's
 * answers are parameters.
 */
module Run {
  import opened Text
  import opened StackExchange
  import opened LocalStore
  import opened Settings
  import opened QuestionPasses
  import opened SlackPasses

  /**
   * runFull: the four passes in order; the posts sent and the links added
   * are PostRun's over the tracked questions. Afterwards at most questionsToWatch
   * of the linked questions the Slack update pass read remain stored, at
   * most questionsToWatch rows of the link table lead to a stored question,
   * and none of the questions it retired still has a link.
   */
  method RunFull(db: Database, client: Client, cfg: Config, now: int,
                 searchPages: seq<Response>, updatePages: seq<Response>, fuel: nat, replies: seq<PostReply>)
    returns (posts: seq<Post>, updates: seq<Update>, ghost fetched: Store, ghost tracked: seq<QuestionRow>,
             ghost posted: Store, ghost order: seq<SlackLink>)
    requires db.Valid()
    requires fuel >= 1
    modifies db, client
    ensures db.Valid()
    ensures fetched == SyncAll(NewPass(old(db.State()), cfg.site, searchPages),
                               ReceivedItems(updatePages, UpdateFetches(updatePages, fuel)), cfg.site)
    ensures NewestByCreation(fetched.questions, cfg.questionsToWatch, tracked)
    ensures var run := PostRun(PostState(fetched.links, [], false), tracked, fetched.users, cfg, replies);
      PostState(posted.links, posts, run.stopped) == run
    ensures posted.questions == fetched.questions && posted.users == fetched.users
    ensures |posted.links| >= |fetched.links| && posted.links[..|fetched.links|] == fetched.links
    ensures ByTsDescending(posted.links, order)
    ensures var r := RefreshRun(RefreshState(posted.questions, posted.links, [], 0, {}), order, cfg.questionsToWatch, cfg);
      db.questions == r.questions && db.links == r.links && db.users == posted.users && updates == r.sent
    ensures |LiveQids(order, db.questions)| <= (if cfg.questionsToWatch < 0 then 0 else cfg.questionsToWatch)
    ensures LiveCount(db.links, db.questions) <= (if cfg.questionsToWatch < 0 then 0 else cfg.questionsToWatch)
    ensures db.questions.Keys <= posted.questions.Keys
    ensures forall k, i :: k in posted.questions && k !in db.questions && 0 <= i < |db.links| ==> db.links[i].qid != k
  {
    var searchFetches, searchUrls := GetNewQuestions(db, client, cfg, now, searchPages);
    var ids, updateFetches, updateUrls := UpdateQuestions(db, client, cfg, updatePages, fuel);
    fetched := db.State();
    posts, tracked := SlackPostNewQuestions(db, cfg, replies);
    ghost var st0 := PostState(fetched.links, [], false);
    PostRunExtends(st0, tracked, fetched.users, cfg, replies);
    posted := db.State();
    updates, order := SlackUpdateQuestions(db, cfg);
    RefreshBound(posted.questions, posted.links, order, cfg.questionsToWatch, cfg);
  }
}
