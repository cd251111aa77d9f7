/**
 * The local SQLite store as three in-memory tables: questions keyed by QID
 * and users keyed by UID (both INTEGER PRIMARY KEY columns), and the
 * Slack links, which have no key and are kept in insertion order.
 * Each write either succeeds as a whole or, when the statement fails
 * (fault), leaves its table unchanged. Dates are Unix seconds.
 */
module LocalStore {
  import opened Text
  import opened StackExchange

  /** time.Time{}.Unix(): the date of Go's zero time value. */
  const GoZeroTime: int := -62135596800

  datatype QuestionRow = QuestionRow(
    qid: int,
    uid: int,
    title: string,
    creationDate: int,
    lastActivityDate: int,
    shareLink: string,
    closedReason: string,
    tags: string,
    site: string,
    isAnswered: bool,
    score: int,
    viewCount: int,
    answerCount: int,
    commentCount: int,
    upVoteCount: int,
    downVoteCount: int,
    deleteVoteCount: int,
    favoriteCount: int,
    reOpenVoteCount: int)

  datatype UserRow = UserRow(
    uid: int,
    displayName: string,
    profileImage: string,
    link: string,
    reputation: int,
    acceptRate: int,
    badgeBronze: int,
    badgeSilver: int,
    badgeGold: int)

  /** A posted Slack message for a question: the channel and message timestamp Slack returned. */
  datatype SlackLink = SlackLink(qid: int, channel: string, ts: string)

  /** The zero records a lookup yields when nothing matches. */
  const ZeroQuestion := QuestionRow(0, 0, "", GoZeroTime, GoZeroTime, "", "", "", "", false,
                                    0, 0, 0, 0, 0, 0, 0, 0, 0)
  const ZeroUser := UserRow(0, "", "", "", 0, 0, 0, 0, 0)
  const ZeroLink := SlackLink(0, "", "")

  /** The row a wire question is stored as, for the given site. */
  function MapQuestion(q: QuestionObj, site: string): QuestionRow {
    QuestionRow(q.qid, q.owner.uid, q.title, q.creationDate, q.lastActivityDate, q.shareLink,
                q.closedReason, Join(q.tags, ";"), site, q.isAnswered, q.score, q.viewCount,
                q.answerCount, q.commentCount, q.upVoteCount, q.downVoteCount, q.deleteVoteCount,
                q.favoriteCount, q.reOpenVoteCount)
  }

  /** The tag list a stored tags column stands for. */
  function TagsOf(row: QuestionRow): (tags: seq<string>)
    ensures |tags| >= 1
  {
    Split(row.tags, ';')
  }

  /**
   * Storing a question keeps its ids, site, texts, dates, every count and
   * (for a non-empty list of tags without ';') its tags.
   */
  lemma MapQuestionKeeps(q: QuestionObj, site: string)
    requires |q.tags| >= 1
    requires forall i :: 0 <= i < |q.tags| ==> ';' !in q.tags[i]
    ensures var row := MapQuestion(q, site);
      && row.qid == q.qid && row.uid == q.owner.uid && row.site == site
      && row.title == q.title && row.shareLink == q.shareLink && row.closedReason == q.closedReason
      && row.creationDate == q.creationDate && row.lastActivityDate == q.lastActivityDate
      && TagsOf(row) == q.tags
      && row.isAnswered == q.isAnswered && row.score == q.score && row.viewCount == q.viewCount
      && row.answerCount == q.answerCount && row.commentCount == q.commentCount
      && row.upVoteCount == q.upVoteCount && row.downVoteCount == q.downVoteCount
      && row.deleteVoteCount == q.deleteVoteCount && row.favoriteCount == q.favoriteCount
      && row.reOpenVoteCount == q.reOpenVoteCount
  {
    SplitJoin(q.tags, ';');
  }

  /** The stored user for a wire owner, badge counts flattened into three columns. */
  function MapUser(u: ShallowUserObj): UserRow {
    UserRow(u.uid, u.displayName, u.profileImage, u.link, u.reputation, u.acceptRate,
            u.badgeCounts.bronze, u.badgeCounts.silver, u.badgeCounts.gold)
  }

  /** The wire owner a stored user row stands for. */
  function UnmapUser(row: UserRow): ShallowUserObj {
    ShallowUserObj(row.uid, row.reputation, row.profileImage, row.displayName, row.link, row.acceptRate,
                   BadgeCounts(row.badgeBronze, row.badgeSilver, row.badgeGold))
  }

  /** Storing a user loses nothing: mapping is inverted by UnmapUser and so is injective. */
  lemma MapUserRoundTrip(u: ShallowUserObj)
    ensures UnmapUser(MapUser(u)) == u
    ensures MapUser(UnmapUser(MapUser(u))) == MapUser(u)
  {
  }

  /** What a create-or-update did. */
  datatype SyncOutcome = UpToDate | Created | Updated | WriteFailed

  /** The first link with the given QID (the row SQLite scans first), or the zero link. */
  function FirstLink(links: seq<SlackLink>, qid: int): (r: SlackLink)
    ensures (exists i :: 0 <= i < |links| && links[i].qid == qid) ==> r.qid == qid && r in links
    ensures (exists i :: 0 <= i < |links| && links[i].qid == qid) ==>
      exists i :: 0 <= i < |links| && links[i] == r && forall j :: 0 <= j < i ==> links[j].qid != qid
    ensures (forall i :: 0 <= i < |links| ==> links[i].qid != qid) ==> r == ZeroLink
  {
    if links == [] then ZeroLink
    else if links[0].qid == qid then links[0]
    else
      assert forall i :: 1 <= i < |links| ==> links[i] == links[1..][i - 1];
      FirstLink(links[1..], qid)
  }

  /** a is b with some elements left out: its elements occur in b in the same order. */
  predicate Subsequence<T(==)>(a: seq<T>, b: seq<T>)
    decreases |b|
  {
    if a == [] then true
    else if b == [] then false
    else if a[0] == b[0] then Subsequence(a[1..], b[1..])
    else Subsequence(a, b[1..])
  }

  /** The links left after deleting every link of qid. */
  function RemoveLinks(links: seq<SlackLink>, qid: int): (r: seq<SlackLink>)
    ensures forall l :: l in r <==> l in links && l.qid != qid
    ensures |r| <= |links|
  {
    if links == [] then []
    else if links[0].qid == qid then RemoveLinks(links[1..], qid)
    else [links[0]] + RemoveLinks(links[1..], qid)
  }

  /**
   * Deleting the links of qid leaves every other row in place: each link of
   * another QID stays as often as before, and the survivors keep their order.
   */
  lemma {:induction false} RemoveLinksKeeps(links: seq<SlackLink>, qid: int)
    ensures forall l :: multiset(RemoveLinks(links, qid))[l] == if l.qid == qid then 0 else multiset(links)[l]
    ensures Subsequence(RemoveLinks(links, qid), links)
    decreases |links|
  {
    if links != [] {
      assert links == [links[0]] + links[1..];
      var rest := RemoveLinks(links[1..], qid);
      RemoveLinksKeeps(links[1..], qid);
      if links[0].qid == qid {
        assert rest == [] || rest[0] != links[0];
      } else {
        assert ([links[0]] + rest)[1..] == rest;
      }
    }
  }

  /** The number of rows SQLite's LIMIT n keeps out of size rows; a negative limit keeps all. */
  function Limit(n: int, size: nat): (r: nat)
    ensures r <= size
    ensures n >= 0 ==> r <= n
    ensures r == size || r == n
    ensures n < 0 ==> r == size
  {
    if n < 0 || n > size then size else n
  }

  ghost predicate Keyed(questions: map<int, QuestionRow>) {
    forall k :: k in questions ==> questions[k].qid == k
  }

  /**
   * rows is what "ORDER BY creationDate DESC LIMIT n" may return: Limit(n)
   * distinct stored rows, newest first, none older than a row left out.
   * Rows with equal dates may come in any order.
   */
  predicate NewestByCreation(questions: map<int, QuestionRow>, n: int, rows: seq<QuestionRow>) {
    && |rows| == Limit(n, |questions|)
    && (forall i :: 0 <= i < |rows| ==> rows[i].qid in questions && questions[rows[i].qid] == rows[i])
    && (forall i, j :: 0 <= i < j < |rows| ==> rows[i].qid != rows[j].qid)
    && (forall i, j :: 0 <= i < j < |rows| ==> rows[j].creationDate <= rows[i].creationDate)
    && (forall k, i :: k in questions && 0 <= i < |rows| && k !in QidsOf(rows) ==>
          questions[k].creationDate <= rows[i].creationDate)
  }

  function QidsOf(rows: seq<QuestionRow>): (s: set<int>)
    ensures forall i :: 0 <= i < |rows| ==> rows[i].qid in s
    ensures forall k :: k in s ==> exists i :: 0 <= i < |rows| && rows[i].qid == k
  {
    set i | 0 <= i < |rows| :: rows[i].qid
  }

  predicate IsNewestKey(questions: map<int, QuestionRow>, keys: set<int>, k: int)
    requires keys <= questions.Keys
  {
    k in keys && forall j :: j in keys ==> questions[j].creationDate <= questions[k].creationDate
  }

  lemma {:induction false} NewestKeyExists(questions: map<int, QuestionRow>, keys: set<int>)
    requires keys != {} && keys <= questions.Keys
    ensures exists k :: IsNewestKey(questions, keys, k)
    decreases keys
  {
    var k0 := AnyKey(keys);
    var rest := keys - {k0};
    if rest == {} {
      assert keys == {k0};
      assert IsNewestKey(questions, keys, k0);
    } else {
      NewestKeyExists(questions, rest);
      var k1 :| IsNewestKey(questions, rest, k1);
      var k := if questions[k0].creationDate <= questions[k1].creationDate then k1 else k0;
      forall j | j in keys ensures questions[j].creationDate <= questions[k].creationDate {
        if j != k0 { assert j in rest; }
      }
      assert IsNewestKey(questions, keys, k);
    }
  }

  /** The keys of keys, newest question first (selection order). */
  ghost function RankKeys(questions: map<int, QuestionRow>, keys: set<int>): (r: seq<int>)
    requires keys <= questions.Keys
    ensures |r| == |keys|
    ensures forall i :: 0 <= i < |r| ==> r[i] in keys
    ensures forall i, j :: 0 <= i < j < |r| ==> r[i] != r[j]
    ensures forall i, j :: 0 <= i < j < |r| ==> questions[r[j]].creationDate <= questions[r[i]].creationDate
    ensures forall k :: k in keys ==> k in r
    decreases keys
  {
    if keys == {} then []
    else
      NewestKeyExists(questions, keys);
      var k :| IsNewestKey(questions, keys, k);
      var rest := RankKeys(questions, keys - {k});
      RankCons(questions, keys, k, rest);
      [k] + rest
  }

  /** Putting the newest key in front of a ranking of the other keys ranks them all. */
  lemma RankCons(questions: map<int, QuestionRow>, keys: set<int>, k: int, rest: seq<int>)
    requires keys <= questions.Keys
    requires IsNewestKey(questions, keys, k)
    requires |rest| == |keys - {k}|
    requires forall i :: 0 <= i < |rest| ==> rest[i] in keys - {k}
    requires forall i, j :: 0 <= i < j < |rest| ==> rest[i] != rest[j]
    requires forall i, j :: 0 <= i < j < |rest| ==> questions[rest[j]].creationDate <= questions[rest[i]].creationDate
    requires forall x :: x in keys - {k} ==> x in rest
    ensures var r := [k] + rest;
      && |r| == |keys|
      && (forall i :: 0 <= i < |r| ==> r[i] in keys)
      && (forall i, j :: 0 <= i < j < |r| ==> r[i] != r[j])
      && (forall i, j :: 0 <= i < j < |r| ==> questions[r[j]].creationDate <= questions[r[i]].creationDate)
      && (forall x :: x in keys ==> x in r)
  {
    forall i | 0 <= i < |rest|
      ensures questions[rest[i]].creationDate <= questions[k].creationDate
    {
      var x := rest[i];
      assert x in keys;
      assert questions[x].creationDate <= questions[k].creationDate;
    }
  }

  /** The stored rows under ks, in the order of ks. */
  ghost function RowsAt(questions: map<int, QuestionRow>, ks: seq<int>): (rows: seq<QuestionRow>)
    requires forall i :: 0 <= i < |ks| ==> ks[i] in questions
    ensures |rows| == |ks|
    ensures forall i :: 0 <= i < |ks| ==> rows[i] == questions[ks[i]]
  {
    seq(|ks|, i requires 0 <= i < |ks| => questions[ks[i]])
  }

  /** Some answer to the tracked-questions query always exists. */
  lemma NewestByCreationExists(questions: map<int, QuestionRow>, n: int) returns (rows: seq<QuestionRow>)
    requires Keyed(questions)
    ensures NewestByCreation(questions, n, rows)
  {
    var ranked := RankKeys(questions, questions.Keys);
    assert |ranked| == |questions|;
    rows := RowsAt(questions, ranked[..Limit(n, |questions|)]);
    RankedPrefixNewest(questions, n, ranked, rows);
  }

  /** The first Limit(n) keys of a ranking by creation date, as rows, answer the tracked-questions query. */
  lemma RankedPrefixNewest(questions: map<int, QuestionRow>, n: int, ranked: seq<int>, rows: seq<QuestionRow>)
    requires Keyed(questions)
    requires |ranked| == |questions|
    requires forall i :: 0 <= i < |ranked| ==> ranked[i] in questions
    requires forall i, j :: 0 <= i < j < |ranked| ==> ranked[i] != ranked[j]
    requires forall i, j :: 0 <= i < j < |ranked| ==> questions[ranked[j]].creationDate <= questions[ranked[i]].creationDate
    requires forall k :: k in questions ==> k in ranked
    requires |rows| == Limit(n, |questions|)
    requires forall i :: 0 <= i < |rows| ==> rows[i] == questions[ranked[i]]
    ensures NewestByCreation(questions, n, rows)
  {
    assert forall i :: 0 <= i < |rows| ==> rows[i].qid == ranked[i];
    NewestPrefix(questions, ranked, |rows|, rows);
  }

  /** A row left out of a prefix of the ranking is no newer than any row in it. */
  lemma NewestPrefix(questions: map<int, QuestionRow>, ranked: seq<int>, m: nat, rows: seq<QuestionRow>)
    requires m <= |ranked| && |rows| == m
    requires forall k :: k in questions ==> k in ranked
    requires forall i :: 0 <= i < |ranked| ==> ranked[i] in questions
    requires forall i, j :: 0 <= i < j < |ranked| ==> questions[ranked[j]].creationDate <= questions[ranked[i]].creationDate
    requires forall i :: 0 <= i < m ==> rows[i] == questions[ranked[i]] && rows[i].qid == ranked[i]
    ensures forall k, i :: k in questions && 0 <= i < |rows| && k !in QidsOf(rows) ==>
      questions[k].creationDate <= rows[i].creationDate
  {
    forall k, i | k in questions && 0 <= i < |rows|
      ensures k in QidsOf(rows) || questions[k].creationDate <= rows[i].creationDate
    {
      var j :| 0 <= j < |ranked| && ranked[j] == k;
      if j < m {
        assert rows[j].qid == k;
      }
    }
  }

  /** rows as they appear in the tracked-ids string: each QID in decimal. */
  function IdTexts(rows: seq<QuestionRow>): (texts: seq<string>)
    ensures |texts| == |rows|
    ensures forall i :: 0 <= i < |rows| ==> texts[i] == IntToString(rows[i].qid)
  {
    if rows == [] then [] else IdTexts(rows[..|rows| - 1]) + [IntToString(rows[|rows| - 1].qid)]
  }

  lemma IdTextsLast(rows: seq<QuestionRow>, i: nat)
    requires i < |rows|
    ensures IdTexts(rows[..i + 1]) == IdTexts(rows[..i]) + [IntToString(rows[i].qid)]
  {
    assert rows[..i + 1][..i] == rows[..i];
  }

  lemma NoSemicolonInId(i: int)
    ensures ';' !in IntToString(i)
  {
    var s := IntToString(i);
    if i < 0 {
      assert forall j :: 1 <= j < |s| ==> s[j] == NatToString(-i)[j - 1];
    }
  }

  /** The tracked-ids string is empty exactly when there are no rows, and a single id stands alone. */
  lemma IdListText(rows: seq<QuestionRow>)
    ensures Join(IdTexts(rows), ";") == "" <==> rows == []
    ensures |rows| == 1 ==> Join(IdTexts(rows), ";") == IntToString(rows[0].qid)
  {
  }

  /** A tracked-ids string of at least one id splits back into the ids, in order. */
  lemma IdListRoundTrip(rows: seq<QuestionRow>)
    requires |rows| >= 1
    ensures var parts := Split(Join(IdTexts(rows), ";"), ';');
      |parts| == |rows| && forall i :: 0 <= i < |rows| ==> parts[i] == IntToString(rows[i].qid)
  {
    var texts := IdTexts(rows);
    forall i | 0 <= i < |texts| ensures ';' !in texts[i] {
      NoSemicolonInId(rows[i].qid);
    }
    SplitJoin(texts, ';');
  }

  /** result is what "ORDER BY ts DESC" may return: the links, each as often as stored, by ts descending. */
  predicate ByTsDescending(links: seq<SlackLink>, result: seq<SlackLink>) {
    && multiset(result) == multiset(links)
    && forall i, j :: 0 <= i < j < |result| ==> LexLe(result[j].ts, result[i].ts)
  }

  /** An index whose ts no other link's ts exceeds. */
  ghost function LatestTsIndex(links: seq<SlackLink>): (m: nat)
    requires links != []
    ensures m < |links|
    ensures forall j :: 0 <= j < |links| ==> LexLe(links[j].ts, links[m].ts)
  {
    if |links| == 1 then
      LexLeReflexive(links[0].ts);
      0
    else
      var m := LatestTsIndex(links[1..]) + 1;
      assert forall j :: 1 <= j < |links| ==> LexLe(links[j].ts, links[m].ts) by {
        forall j | 1 <= j < |links| ensures LexLe(links[j].ts, links[m].ts) {
          assert links[j] == links[1..][j - 1];
        }
      }
      if LexLe(links[0].ts, links[m].ts) then m
      else
        LexLeTotal(links[0].ts, links[m].ts);
        LexLeReflexive(links[0].ts);
        assert forall j :: 1 <= j < |links| ==> LexLe(links[j].ts, links[0].ts) by {
          forall j | 1 <= j < |links| ensures LexLe(links[j].ts, links[0].ts) {
            LexLeTransitive(links[j].ts, links[m].ts, links[0].ts);
          }
        }
        0
  }

  lemma RemoveAt(links: seq<SlackLink>, m: nat)
    requires m < |links|
    ensures |links[..m] + links[m + 1..]| == |links| - 1
    ensures multiset(links) == multiset(links[..m] + links[m + 1..]) + multiset{links[m]}
  {
    assert links == links[..m] + [links[m]] + links[m + 1..];
  }

  /** Putting the latest link in front of a sorted arrangement of the others sorts all of them. */
  lemma PrependLatest(links: seq<SlackLink>, m: nat, rest: seq<SlackLink>, sorted: seq<SlackLink>)
    requires m < |links|
    requires forall j :: 0 <= j < |links| ==> LexLe(links[j].ts, links[m].ts)
    requires multiset(links) == multiset(rest) + multiset{links[m]}
    requires ByTsDescending(rest, sorted)
    ensures ByTsDescending(links, [links[m]] + sorted)
  {
    var r := [links[m]] + sorted;
    forall i | 0 <= i < |sorted| ensures LexLe(sorted[i].ts, links[m].ts) {
      assert sorted[i] in multiset(rest);
      assert sorted[i] in multiset(links);
      var j :| 0 <= j < |links| && links[j] == sorted[i];
    }
    forall i, j | 0 <= i < j < |r| ensures LexLe(r[j].ts, r[i].ts) {
      assert r[j] == sorted[j - 1];
      if i > 0 {
        assert r[i] == sorted[i - 1];
      }
    }
  }

  /** The links sorted by ts descending (selection order). */
  ghost function SortByTs(links: seq<SlackLink>): (r: seq<SlackLink>)
    ensures ByTsDescending(links, r)
    decreases |links|
  {
    if links == [] then []
    else
      var m := LatestTsIndex(links);
      var rest := links[..m] + links[m + 1..];
      RemoveAt(links, m);
      var sorted := SortByTs(rest);
      PrependLatest(links, m, rest, sorted);
      [links[m]] + sorted
  }

  /** The question lookup on a bare table: the row under qid, or the zero question. */
  function QuestionIn(questions: map<int, QuestionRow>, qid: int): (q: QuestionRow)
    ensures qid in questions ==> q == questions[qid]
    ensures qid !in questions ==> q == ZeroQuestion
  {
    if qid in questions then questions[qid] else ZeroQuestion
  }

  function UserIn(users: map<int, UserRow>, uid: int): (u: UserRow)
    ensures uid in users ==> u == users[uid]
    ensures uid !in users ==> u == ZeroUser
  {
    if uid in users then users[uid] else ZeroUser
  }

  /**
   * The question table after a fault-free sync of q: unchanged when the
   * stored row already matches, or when an existing row sits under a QID
   * that is not positive (the insert then hits the key); otherwise the
   * mapped row under q's QID.
   */
  function SyncedQuestions(questions: map<int, QuestionRow>, q: QuestionObj, site: string): (r: map<int, QuestionRow>)
    ensures Keyed(questions) ==> Keyed(r)
    ensures r.Keys == questions.Keys || r.Keys == questions.Keys + {q.qid}
  {
    var row := MapQuestion(q, site);
    if QuestionIn(questions, q.qid) == row || (q.qid in questions && q.qid <= 0) then questions
    else questions[q.qid := row]
  }

  /** The user table after a fault-free sync of u, by the same rule keyed on UID. */
  function SyncedUsers(users: map<int, UserRow>, u: ShallowUserObj): (r: map<int, UserRow>)
    ensures (forall k :: k in users ==> users[k].uid == k) ==> (forall k :: k in r ==> r[k].uid == k)
    ensures r.Keys == users.Keys || r.Keys == users.Keys + {u.uid}
  {
    var row := MapUser(u);
    if UserIn(users, u.uid) == row || (u.uid in users && u.uid <= 0) then users
    else users[u.uid := row]
  }

  /** Syncing the same question twice writes nothing the second time. */
  lemma SyncedQuestionsIdempotent(questions: map<int, QuestionRow>, q: QuestionObj, site: string)
    ensures SyncedQuestions(SyncedQuestions(questions, q, site), q, site) == SyncedQuestions(questions, q, site)
  {
  }

  /** After a sync, the lookup by q's QID yields exactly the mapped row, unless a non-positive QID is already taken. */
  lemma SyncedQuestionsFind(questions: map<int, QuestionRow>, q: QuestionObj, site: string)
    requires q.qid > 0 || q.qid !in questions
    ensures QuestionIn(SyncedQuestions(questions, q, site), q.qid) == MapQuestion(q, site)
    ensures forall k :: k != q.qid && k in questions ==>
      k in SyncedQuestions(questions, q, site) && SyncedQuestions(questions, q, site)[k] == questions[k]
  {
  }

  lemma SyncedUsersIdempotent(users: map<int, UserRow>, u: ShallowUserObj)
    ensures SyncedUsers(SyncedUsers(users, u), u) == SyncedUsers(users, u)
  {
  }

  /** The row "ORDER BY QID DESC LIMIT 1" yields: the largest QID's row, or the zero question. */
  ghost function LatestIn(questions: map<int, QuestionRow>): (q: QuestionRow)
    requires Keyed(questions)
    ensures questions == map[] ==> q == ZeroQuestion
    ensures questions != map[] ==> IsLargestKey(questions.Keys, q.qid) && questions[q.qid] == q
  {
    if questions == map[] then ZeroQuestion
    else
      LargestKeyExists(questions.Keys);
      var k :| IsLargestKey(questions.Keys, k);
      questions[k]
  }

  datatype Store = Store(questions: map<int, QuestionRow>, users: map<int, UserRow>, links: seq<SlackLink>)

  class Database {
    var questions: map<int, QuestionRow>
    var users: map<int, UserRow>
    var links: seq<SlackLink>

    /** Every row sits under its own primary key. */
    ghost predicate Valid()
      reads this
    {
      && Keyed(questions)
      && (forall k :: k in users ==> users[k].uid == k)
    }

    function State(): Store
      reads this
    {
      Store(questions, users, links)
    }

    constructor ()
      ensures Valid() && questions == map[] && users == map[] && links == []
    {
      questions, users, links := map[], map[], [];
    }

    /** The stored question with this QID, or the zero question. */
    function FindQuestion(qid: int): (q: QuestionRow)
      requires Valid()
      reads this
      ensures qid in questions ==> q == questions[qid] && q.qid == qid
      ensures qid !in questions ==> q == ZeroQuestion
    {
      if qid in questions then questions[qid] else ZeroQuestion
    }

    /** The stored user with this UID, or the zero user. */
    function FindUser(uid: int): (u: UserRow)
      requires Valid()
      reads this
      ensures uid in users ==> u == users[uid] && u.uid == uid
      ensures uid !in users ==> u == ZeroUser
    {
      if uid in users then users[uid] else ZeroUser
    }

    /** The first stored link of this QID, or the zero link. */
    function FindLink(qid: int): (l: SlackLink)
      reads this
      ensures l == FirstLink(links, qid)
    {
      FirstLink(links, qid)
    }

    /** The question with the largest QID; the zero question (and not found) when the table is empty. */
    method LatestQuestion() returns (q: QuestionRow, found: bool)
      requires Valid()
      ensures found == (questions != map[])
      ensures found ==> q.qid in questions && questions[q.qid] == q
      ensures found ==> forall k :: k in questions ==> k <= q.qid
      ensures !found ==> q == ZeroQuestion
      ensures q == LatestIn(questions)
    {
      if questions == map[] {
        return ZeroQuestion, false;
      }
      LargestKeyExists(questions.Keys);
      var k :| IsLargestKey(questions.Keys, k);
      q, found := questions[k], true;
    }

    method QuestionCreate(row: QuestionRow, fault: bool) returns (ok: bool)
      requires Valid()
      modifies this
      ensures Valid()
      ensures ok == (!fault && row.qid !in old(questions))
      ensures questions == if ok then old(questions)[row.qid := row] else old(questions)
      ensures users == old(users) && links == old(links)
    {
      if fault || row.qid in questions {
        return false;
      }
      questions := questions[row.qid := row];
      ok := true;
    }

    /** UPDATE ... WHERE QID = row.qid: rewrites the whole row if it exists; no match is not an error. */
    method QuestionUpdate(row: QuestionRow, fault: bool) returns (ok: bool)
      requires Valid()
      modifies this
      ensures Valid()
      ensures ok == !fault
      ensures questions == if ok && row.qid in old(questions) then old(questions)[row.qid := row] else old(questions)
      ensures users == old(users) && links == old(links)
    {
      if fault {
        return false;
      }
      if row.qid in questions {
        questions := questions[row.qid := row];
      }
      ok := true;
    }

    /** Removes the question with this QID; an absent QID is not an error. */
    method QuestionDelete(qid: int, fault: bool) returns (ok: bool)
      requires Valid()
      modifies this
      ensures Valid()
      ensures ok == !fault
      ensures questions == if ok then old(questions) - {qid} else old(questions)
      ensures users == old(users) && links == old(links)
    {
      if fault {
        return false;
      }
      questions := questions - {qid};
      ok := true;
    }

    method UserCreate(row: UserRow, fault: bool) returns (ok: bool)
      requires Valid()
      modifies this
      ensures Valid()
      ensures ok == (!fault && row.uid !in old(users))
      ensures users == if ok then old(users)[row.uid := row] else old(users)
      ensures questions == old(questions) && links == old(links)
    {
      if fault || row.uid in users {
        return false;
      }
      users := users[row.uid := row];
      ok := true;
    }

    method UserUpdate(row: UserRow, fault: bool) returns (ok: bool)
      requires Valid()
      modifies this
      ensures Valid()
      ensures ok == !fault
      ensures users == if ok && row.uid in old(users) then old(users)[row.uid := row] else old(users)
      ensures questions == old(questions) && links == old(links)
    {
      if fault {
        return false;
      }
      if row.uid in users {
        users := users[row.uid := row];
      }
      ok := true;
    }

    /** Appends a link; the table has no key, so duplicates are possible. */
    method LinkCreate(link: SlackLink, fault: bool) returns (ok: bool)
      requires Valid()
      modifies this
      ensures Valid()
      ensures ok == !fault
      ensures links == if ok then old(links) + [link] else old(links)
      ensures questions == old(questions) && users == old(users)
    {
      if fault {
        return false;
      }
      links := links + [link];
      ok := true;
    }

    /** Removes every link of this QID; an absent QID is not an error. */
    method LinkDelete(qid: int, fault: bool) returns (ok: bool)
      requires Valid()
      modifies this
      ensures Valid()
      ensures ok == !fault
      ensures links == if ok then RemoveLinks(old(links), qid) else old(links)
      ensures ok ==> forall l :: multiset(links)[l] == if l.qid == qid then 0 else multiset(old(links))[l]
      ensures ok ==> Subsequence(links, old(links))
      ensures questions == old(questions) && users == old(users)
    {
      if fault {
        return false;
      }
      RemoveLinksKeeps(links, qid);
      links := RemoveLinks(links, qid);
      ok := true;
    }

    /**
     * Stores a wire question for site: nothing is written when the stored
     * row already equals the mapped one; an existing positive QID is
     * updated; anything else is inserted, which fails on a key conflict.
     */
    method SyncQuestion(q: QuestionObj, site: string, fault: bool) returns (outcome: SyncOutcome)
      requires Valid()
      modifies this
      ensures Valid()
      ensures users == old(users) && links == old(links)
      ensures outcome == UpToDate <==> old(FindQuestion(q.qid)) == MapQuestion(q, site)
      ensures outcome == Updated <==> old(FindQuestion(q.qid)) != MapQuestion(q, site) && !fault
                                       && q.qid in old(questions) && q.qid > 0
      ensures outcome == Created <==> old(FindQuestion(q.qid)) != MapQuestion(q, site) && !fault
                                       && q.qid !in old(questions)
      ensures outcome == WriteFailed <==>
        old(FindQuestion(q.qid)) != MapQuestion(q, site) && (fault || (q.qid in old(questions) && q.qid <= 0))
      ensures outcome == UpToDate || outcome == WriteFailed ==> questions == old(questions)
      ensures outcome == Created || outcome == Updated ==> questions == old(questions)[q.qid := MapQuestion(q, site)]
      ensures outcome != WriteFailed ==> FindQuestion(q.qid) == MapQuestion(q, site)
      ensures !fault ==> questions == SyncedQuestions(old(questions), q, site)
    {
      var existing := FindQuestion(q.qid);
      var row := MapQuestion(q, site);
      if existing == row {
        return UpToDate;
      }
      var ok: bool;
      if existing.qid > 0 {
        ok := QuestionUpdate(row, fault);
        outcome := if ok then Updated else WriteFailed;
      } else {
        ok := QuestionCreate(row, fault);
        outcome := if ok then Created else WriteFailed;
      }
    }

    /** Stores a wire owner with the same equality-gated create-or-update rule, keyed by UID. */
    method SyncUser(u: ShallowUserObj, fault: bool) returns (outcome: SyncOutcome)
      requires Valid()
      modifies this
      ensures Valid()
      ensures questions == old(questions) && links == old(links)
      ensures outcome == UpToDate <==> old(FindUser(u.uid)) == MapUser(u)
      ensures outcome == Updated <==> old(FindUser(u.uid)) != MapUser(u) && !fault && u.uid in old(users) && u.uid > 0
      ensures outcome == Created <==> old(FindUser(u.uid)) != MapUser(u) && !fault && u.uid !in old(users)
      ensures outcome == WriteFailed <==> old(FindUser(u.uid)) != MapUser(u) && (fault || (u.uid in old(users) && u.uid <= 0))
      ensures outcome == UpToDate || outcome == WriteFailed ==> users == old(users)
      ensures outcome == Created || outcome == Updated ==> users == old(users)[u.uid := MapUser(u)]
      ensures outcome != WriteFailed ==> FindUser(u.uid) == MapUser(u)
      ensures !fault ==> users == SyncedUsers(old(users), u)
    {
      var existing := FindUser(u.uid);
      var row := MapUser(u);
      if existing == row {
        return UpToDate;
      }
      var ok: bool;
      if existing.uid > 0 {
        ok := UserUpdate(row, fault);
        outcome := if ok then Updated else WriteFailed;
      } else {
        ok := UserCreate(row, fault);
        outcome := if ok then Created else WriteFailed;
      }
    }

    /** The n newest questions by creation date (all when n is negative) and their number. */
    method QuestionsTracked(n: int) returns (tracked: seq<QuestionRow>, count: int)
      requires Valid()
      ensures NewestByCreation(questions, n, tracked)
      ensures count == |tracked|
      ensures n >= 0 ==> count <= n
    {
      ghost var newest := NewestByCreationExists(questions, n);
      var result: seq<QuestionRow> :| NewestByCreation(questions, n, result);
      tracked, count := [], 0;
      var i := 0;
      while i < |result|
        invariant 0 <= i <= |result|
        invariant tracked == result[..i] && count == i
      {
        tracked := tracked + [result[i]];
        count := count + 1;
        i := i + 1;
      }
      assert result[..|result|] == result;
    }

    /**
     * The QIDs of the n newest questions as one string, separated by ';'
     * when there are several, and their number; "" when there are none.
     */
    method TrackedIds(n: int) returns (ids: string, count: int)
      requires Valid()
      ensures exists rows :: NewestByCreation(questions, n, rows) && count == |rows| && ids == Join(IdTexts(rows), ";")
      ensures ids == "" <==> count == 0
      ensures n >= 0 ==> count <= n
    {
      ghost var newest := NewestByCreationExists(questions, n);
      var result: seq<QuestionRow> :| NewestByCreation(questions, n, result);
      ids, count := CollectIds(result);
      IdListText(result);
    }

    /** Every link, ordered by ts descending, and their number. */
    method LinksGetAll() returns (all: seq<SlackLink>, count: int)
      ensures ByTsDescending(links, all)
      ensures count == |all|
    {
      ghost var sorted := SortByTs(links);
      var result: seq<SlackLink> :| ByTsDescending(links, result);
      all, count := [], 0;
      var i := 0;
      while i < |result|
        invariant 0 <= i <= |result|
        invariant all == result[..i] && count == i
      {
        all := all + [result[i]];
        count := count + 1;
        i := i + 1;
      }
      assert result[..|result|] == result;
    }
  }

  /**
   * The scan of the tracked-ids query: remembers each QID's text, keeps the
   * last one alone, and joins them with ';' when there were several.
   */
  method CollectIds(rows: seq<QuestionRow>) returns (ids: string, count: int)
    ensures ids == Join(IdTexts(rows), ";") && count == |rows|
  {
    ids, count := "", 0;
    var idsMap: seq<string> := [];
    var i := 0;
    while i < |rows|
      invariant 0 <= i <= |rows|
      invariant idsMap == IdTexts(rows[..i]) && count == i
      invariant ids == if i == 0 then "" else IntToString(rows[i - 1].qid)
    {
      IdTextsLast(rows, i);
      var qidText := IntToString(rows[i].qid);
      ids := qidText;
      idsMap := idsMap + [qidText];
      count := count + 1;
      i := i + 1;
    }
    assert rows[..|rows|] == rows;
    IdListText(rows);
    if count > 1 {
      ids := Join(idsMap, ";");
    }
  }

  /** A non-empty set of keys has a member. */
  lemma AnyKey(keys: set<int>) returns (k: int)
    requires keys != {}
    ensures k in keys
  {
    if forall j :: j !in keys {
      assert false;
    }
    k :| k in keys;
  }

  predicate IsLargestKey(keys: set<int>, k: int) {
    k in keys && forall j :: j in keys ==> j <= k
  }

  lemma {:induction false} LargestKeyExists(keys: set<int>)
    requires keys != {}
    ensures exists k :: IsLargestKey(keys, k)
    decreases keys
  {
    var k0 := AnyKey(keys);
    var rest := keys - {k0};
    if rest == {} {
      assert keys == {k0};
      assert IsLargestKey(keys, k0);
    } else {
      LargestKeyExists(rest);
      var k1 :| IsLargestKey(rest, k1);
      var k := if k0 <= k1 then k1 else k0;
      forall j | j in keys ensures j <= k {
        if j != k0 { assert j in rest; }
      }
      assert IsLargestKey(keys, k);
    }
  }
}
