/** controllers/posts.js: the like toggle, the pagination arithmetic of the feed
    handlers and `getPaginationParams`, and `createPost`, a lookup followed by a
    save raced against a 5000 ms timer inside a MongoDB client session. The
    posts and users collections are values passed in and returned. */
module Posts {
  import opened Wrappers
  import opened JsString

  datatype Comment = Comment(userId: string, text: string, createdAt: int)

  /** A post document (models/Post.js); `likes` maps a user id to `true`. */
  datatype PostRecord = PostRecord(
    id: string,
    userId: string,
    firstName: string,
    lastName: string,
    location: Option<string>,
    description: Option<string>,
    picturePath: Option<string>,
    userPicturePath: Option<string>,
    likes: map<string, bool>,
    comments: seq<Comment>,
    createdAt: int)

  /** The fields `createPost` selects from the user: firstName lastName location picturePath. */
  datatype UserProfile = UserProfile(
    firstName: string,
    lastName: string,
    location: Option<string>,
    picturePath: Option<string>)

  // ---------------------------------------------------------------- likes

  /** `post.likes.get(userId)` is truthy. */
  predicate Liked(likes: map<string, bool>, userId: string) {
    userId in likes && likes[userId]
  }

  /** The likes map after one toggle: a truthy entry is deleted, anything else becomes
      `true`. The toggle flips whether the user likes the post and leaves every other
      user's entry alone. */
  function Toggled(likes: map<string, bool>, userId: string): (r: map<string, bool>)
    ensures Liked(r, userId) <==> !Liked(likes, userId)
    ensures userId in r ==> r[userId]
    ensures forall u :: u != userId ==> (u in r <==> u in likes)
    ensures forall u :: u != userId && u in likes ==> r[u] == likes[u]
  {
    if Liked(likes, userId) then likes - {userId} else likes[userId := true]
  }

  /** Two toggles restore the map when the user's entry was `true` or absent; a stored
      `false` is not restored but removed. */
  lemma ToggleTwice(likes: map<string, bool>, userId: string)
    ensures userId !in likes || likes[userId] ==> Toggled(Toggled(likes, userId), userId) == likes
    ensures userId in likes && !likes[userId] ==> Toggled(Toggled(likes, userId), userId) == likes - {userId}
  {
    if userId !in likes {
      assert Toggled(Toggled(likes, userId), userId) == likes[userId := true] - {userId};
    }
  }

  /** The post document `findById` loads; `likePost` mutates its `likes` Map in place. */
  class PostDocument {
    var likes: map<string, bool>

    constructor (likes: map<string, bool>)
      ensures this.likes == likes
    {
      this.likes := likes;
    }

    method ToggleLike(userId: string)
      modifies this
      ensures likes == Toggled(old(likes), userId)
    {
      var isLiked := userId in likes && likes[userId];
      if isLiked {
        likes := likes - {userId};
      } else {
        likes := likes[userId := true];
      }
    }
  }

  /** What `Post.findById(id).likes` throws with when the post does not exist. */
  const NullPostMessage: string := "Cannot read properties of null (reading 'likes')"

  datatype LikeResponse =
    | LikeOk(post: PostRecord)      // 200 with the updated post
    | LikeFailed(message: string)   // 404 {message: err.message}

  /** `likePost`: load, toggle the in-memory map, write the map back with `findByIdAndUpdate`. */
  method LikePost(posts: map<string, PostRecord>, id: string, userId: string)
    returns (resp: LikeResponse, updated: map<string, PostRecord>)
    ensures id !in posts ==> resp == LikeFailed(NullPostMessage) && updated == posts
    ensures id in posts ==>
              updated == posts[id := posts[id].(likes := Toggled(posts[id].likes, userId))] &&
              resp == LikeOk(updated[id])
  {
    if id !in posts {
      return LikeFailed(NullPostMessage), posts;
    }
    var doc := new PostDocument(posts[id].likes);
    doc.ToggleLike(userId);
    var post := posts[id].(likes := doc.likes);
    updated := posts[id := post];
    resp := LikeOk(post);
  }

  // ---------------------------------------------------------- pagination

  datatype PageParams = PageParams(page: int, limit: int, skip: int)

  /** `parseInt(query.x)`; an absent parameter is `undefined`, which parses to `NaN`. */
  function ParseParam(q: Option<string>): Option<int> {
    match q
    case Some(s) => ParseInt(s)
    case None => None
  }

  /** `v || d` on a number: `NaN` and 0 are falsy. */
  function OrDefault(v: Option<int>, d: int): int {
    match v
    case Some(n) => if n == 0 then d else n
    case None => d
  }

  function Max(a: int, b: int): int { if a >= b then a else b }
  function Min(a: int, b: int): int { if a <= b then a else b }

  /** The clamping of `getPaginationParams` applied to the already parsed values. */
  function Paginate(page: Option<int>, limit: Option<int>): (p: PageParams)
    ensures p.page >= 1 && 1 <= p.limit <= 50
    ensures p.skip == (p.page - 1) * p.limit && p.skip >= 0
    ensures page == None || page == Some(0) ==> p.page == 1
    ensures limit == None || limit == Some(0) ==> p.limit == 10
    ensures page.Some? && page.value >= 1 ==> p.page == page.value
    ensures page.Some? && page.value < 0 ==> p.page == 1
    ensures limit.Some? && 1 <= limit.value <= 50 ==> p.limit == limit.value
    ensures limit.Some? && limit.value > 50 ==> p.limit == 50
    ensures limit.Some? && limit.value < 0 ==> p.limit == 1
  {
    var pg := Max(1, OrDefault(page, 1));
    var lim := Min(50, Max(1, OrDefault(limit, 10)));
    PageParams(pg, lim, (pg - 1) * lim)
  }

  /** `getPaginationParams(query)`. */
  function GetPaginationParams(page: Option<string>, limit: Option<string>): (p: PageParams)
    ensures p.page >= 1 && 1 <= p.limit <= 50 && p.skip == (p.page - 1) * p.limit
    ensures page.None? ==> p.page == 1
    ensures limit.None? ==> p.limit == 10
    ensures ParseParam(page).Some? && ParseParam(page).value >= 1 ==> p.page == ParseParam(page).value
    ensures ParseParam(limit).Some? && 1 <= ParseParam(limit).value <= 50 ==> p.limit == ParseParam(limit).value
    ensures ParseParam(page).None? ==> p.page == 1
    ensures ParseParam(limit).None? ==> p.limit == 10
  {
    Paginate(ParseParam(page), ParseParam(limit))
  }

  /** Query strings written as `String(n)` are read back as they were meant. */
  lemma PaginationOfNumerals(page: nat, limit: nat)
    requires page >= 1 && 1 <= limit <= 50
    ensures GetPaginationParams(Some(Decimal(page)), Some(Decimal(limit))) ==
              PageParams(page, limit, (page - 1) * limit)
  {
    ParseIntNumeral(page);
    ParseIntNumeral(limit);
    assert ParseParam(Some(Decimal(page))) == Some(page as int);
    assert ParseParam(Some(Decimal(limit))) == Some(limit as int);
  }

  // ----------------------------------------------------------------- feed

  predicate SortedDesc(s: seq<PostRecord>) {
    forall i, j :: 0 <= i < j < |s| ==> s[i].createdAt >= s[j].createdAt
  }

  lemma TailSorted(s: seq<PostRecord>)
    requires SortedDesc(s) && s != []
    ensures SortedDesc(s[1..])
  {
    var rest := s[1..];
    forall i, j | 0 <= i < j < |rest| ensures rest[i].createdAt >= rest[j].createdAt {
      assert rest[i] == s[i + 1] && rest[j] == s[j + 1];
    }
  }

  lemma ConsSorted(x: PostRecord, t: seq<PostRecord>)
    requires SortedDesc(t) && (t == [] || t[0].createdAt <= x.createdAt)
    ensures SortedDesc([x] + t)
  {
    var r := [x] + t;
    forall i, j | 0 <= i < j < |r| ensures r[i].createdAt >= r[j].createdAt {
      if i == 0 {
        assert r[j] == t[j - 1] && t[j - 1].createdAt <= t[0].createdAt;
      } else {
        assert r[i] == t[i - 1] && r[j] == t[j - 1];
      }
    }
  }

  function Insert(p: PostRecord, s: seq<PostRecord>): (r: seq<PostRecord>)
    requires SortedDesc(s)
    ensures SortedDesc(r)
    ensures multiset(r) == multiset(s) + multiset{p}
    ensures |r| == |s| + 1
    ensures s == [] || p.createdAt >= s[0].createdAt ==> r[0] == p
    ensures s != [] && p.createdAt < s[0].createdAt ==> r[0] == s[0]
  {
    if s == [] || p.createdAt >= s[0].createdAt then
      ConsSorted(p, s);
      [p] + s
    else
      TailSorted(s);
      var t := Insert(p, s[1..]);
      assert |s| > 1 ==> s[1] == s[1..][0] && s[1].createdAt <= s[0].createdAt;
      ConsSorted(s[0], t);
      assert s == [s[0]] + s[1..];
      [s[0]] + t
  }

  /** `.sort({ createdAt: -1 })`, newest first; the relative order of equal
      timestamps is the store's choice and this is one of them. */
  function SortNewestFirst(s: seq<PostRecord>): (r: seq<PostRecord>)
    ensures SortedDesc(r)
    ensures multiset(r) == multiset(s)
    ensures |r| == |s|
  {
    if s == [] then []
    else
      assert s == [s[0]] + s[1..];
      Insert(s[0], SortNewestFirst(s[1..]))
  }

  /** `.skip(skip).limit(limit)` on a query result. */
  function Window(s: seq<PostRecord>, skip: nat, limit: nat): (r: seq<PostRecord>)
    ensures |r| == Min(limit, Max(0, |s| - skip))
    ensures forall i :: 0 <= i < |r| ==> r[i] == s[skip + i]
    ensures r != [] ==> skip + |r| <= |s|
    ensures multiset(r) <= multiset(s)
    ensures forall x :: x in r ==> x in s
    ensures SortedDesc(s) ==> SortedDesc(r)
  {
    if skip >= |s| then []
    else
      var e := Min(skip + limit, |s|);
      assert s == s[..skip] + s[skip..e] + s[e..];
      s[skip..e]
  }

  /** `Math.ceil(total / limit)`. */
  function CeilDiv(total: nat, limit: int): (r: nat)
    requires limit >= 1
    ensures (r - 1) * limit < total <= r * limit || (total == 0 && r == 0)
  {
    (total + limit - 1) / limit
  }

  datatype FeedPage = FeedPage(posts: seq<PostRecord>, currentPage: int, totalPages: int, totalPosts: int)

  /** `skip = (page - 1) * limit`. */
  function Skip(page: int, limit: int): nat
    requires page >= 1 && limit >= 1
  {
    (page - 1) * limit
  }

  /** The body of a feed response for numeric `page` and `limit`: the newest-first
      posts from `skip = (page - 1) * limit` on, at most `limit` of them. */
  function FeedOf(all: seq<PostRecord>, page: int, limit: int): (r: FeedPage)
    requires page >= 1 && limit >= 1
    ensures |r.posts| <= limit && SortedDesc(r.posts)
    ensures multiset(r.posts) <= multiset(all)
    ensures forall x :: x in r.posts ==> x in all
    ensures r.totalPosts == |all| && r.currentPage == page
    ensures r.totalPages == CeilDiv(|all|, limit)
    ensures |r.posts| == Min(limit, Max(0, |all| - Skip(page, limit)))
    ensures r.posts != [] ==> Skip(page, limit) + |r.posts| <= |all|
    ensures forall i :: 0 <= i < |r.posts| ==> r.posts[i] == SortNewestFirst(all)[Skip(page, limit) + i]
  {
    var sorted := SortNewestFirst(all);
    var w := Window(sorted, Skip(page, limit), limit);
    assert forall x :: x in w ==> x in all by {
      forall x | x in w ensures x in all {
        assert x in multiset(sorted);
      }
    }
    FeedPage(w, page, CeilDiv(|all|, limit), |all|)
  }

  lemma MulMonotone(a: int, b: int, c: nat)
    requires a <= b
    ensures a * c <= b * c
  {
  }

  /** Page `page` starts past the last post exactly when `page > ceil(n / limit)`. */
  lemma PastLastPage(n: nat, page: int, limit: int)
    requires page >= 1 && limit >= 1
    ensures Skip(page, limit) >= n <==> page > CeilDiv(n, limit)
  {
    var t := CeilDiv(n, limit);
    if page > t {
      MulMonotone(t, page - 1, limit);
    } else {
      MulMonotone(page - 1, t - 1, limit);
    }
  }

  /** A page is empty exactly when its number is past `totalPages`. */
  lemma EmptyPastLastPage(all: seq<PostRecord>, page: int, limit: int)
    requires page >= 1 && limit >= 1
    ensures FeedOf(all, page, limit).posts == [] <==> page > FeedOf(all, page, limit).totalPages
  {
    PastLastPage(|all|, page, limit);
  }

  function PostsOf(all: seq<PostRecord>, userId: string): (r: seq<PostRecord>)
    ensures forall p :: p in r ==> p.userId == userId
    ensures multiset(r) <= multiset(all)
    ensures forall p :: p in all && p.userId == userId ==> p in r
  {
    if all == [] then []
    else
      var rest := PostsOf(all[1..], userId);
      var head := if all[0].userId == userId then [all[0]] else [];
      assert all == [all[0]] + all[1..];
      assert multiset(all) == multiset{all[0]} + multiset(all[1..]);
      assert forall p :: p in head + rest <==> p in head || p in rest;
      head + rest
  }

  /** `getUserPosts`: the same page over the posts of one user only. */
  function GetUserPosts(all: seq<PostRecord>, userId: string, page: int, limit: int): (r: FeedPage)
    requires page >= 1 && limit >= 1
    ensures forall i :: 0 <= i < |r.posts| ==> r.posts[i].userId == userId
    ensures r.totalPosts == |PostsOf(all, userId)| && |r.posts| <= limit
    ensures r.currentPage == page && r.totalPages == CeilDiv(|PostsOf(all, userId)|, limit)
    ensures r == FeedOf(PostsOf(all, userId), page, limit)
  {
    var mine := PostsOf(all, userId);
    var r := FeedOf(mine, page, limit);
    MembersOwned(r.posts, mine, userId);
    r
  }

  /** Posts drawn from one user's posts all belong to that user. */
  lemma MembersOwned(drawn: seq<PostRecord>, mine: seq<PostRecord>, userId: string)
    requires forall x :: x in drawn ==> x in mine
    requires forall x :: x in mine ==> x.userId == userId
    ensures forall i :: 0 <= i < |drawn| ==> drawn[i].userId == userId
  {
    forall i | 0 <= i < |drawn| ensures drawn[i].userId == userId {
      assert drawn[i] in drawn;
    }
  }

  // ------------------------------------------------------------ createPost

  /** The transaction states of a MongoDB client session. */
  datatype TxnState = NoTransaction | Starting | InProgress | Committed | Aborted

  predicate Open(t: TxnState) {
    t == Starting || t == InProgress
  }

  /** `mongoose.startSession()`: the session object `createPost` steps through its states. */
  class Session {
    var txn: TxnState
    var ended: bool

    constructor ()
      ensures txn == NoTransaction && !ended
    {
      txn := NoTransaction;
      ended := false;
    }

    /** `session.startTransaction()`. */
    method StartTransaction()
      requires !ended && !Open(txn)
      modifies this
      ensures txn == Starting && !ended
    {
      txn := Starting;
    }

    /** The first operation sent inside the transaction (`save({ session })`). */
    method Write()
      requires !ended && Open(txn)
      modifies this
      ensures txn == InProgress && !ended
    {
      txn := InProgress;
    }

    /** `session.commitTransaction()`. */
    method Commit()
      requires !ended && Open(txn)
      modifies this
      ensures txn == Committed && !ended
    {
      txn := Committed;
    }

    /** `session.abortTransaction()`: it rejects, changing nothing, unless a transaction
        is open (after a commit, after an abort, or before any start). */
    method Abort() returns (ok: bool)
      requires !ended
      modifies this
      ensures ok <==> Open(old(txn))
      ensures txn == if ok then Aborted else old(txn)
      ensures !ended
    {
      ok := Open(txn);
      if ok {
        txn := Aborted;
      }
    }

    /** `session.endSession()`: a transaction still open is aborted. */
    method End()
      modifies this
      ensures ended
      ensures txn == if Open(old(txn)) then Aborted else old(txn)
    {
      if Open(txn) {
        txn := Aborted;
      }
      ended := true;
    }
  }

  /** The milliseconds after which the timer in `Promise.race` rejects with "Save timeout". */
  const SaveTimeout: int := 5000

  /** The number of latest posts returned after a successful create. */
  const LatestCount: nat := 10

  datatype CreateBody = CreateBody(userId: string, description: Option<string>, picturePath: Option<string>)

  /** The outcomes of the calls `createPost` awaits, given in advance:
      whether `User.findById` throws, when (ms after the race starts) and how
      `save` settles, whether the final `Post.find` throws, the id the store
      gives the post and the time it is saved at. */
  datatype CreateEvents = CreateEvents(
    lookupFails: bool,
    saveSettlesAt: int,
    saveOk: bool,
    latestFails: bool,
    postId: string,
    now: int)

  datatype CreateResponse =
    | Created(posts: seq<PostRecord>)  // 201 with the latest posts
    | UserNotFound                     // 404 {message: "User not found"}
    | CreateFailed                     // 500 {message: "Failed to create post"}
    | Unanswered                       // the handler rejects before any response is sent

  /** `save` settles strictly before the timer fires and does not fail. */
  predicate SaveWins(ev: CreateEvents) {
    ev.saveSettlesAt < SaveTimeout && ev.saveOk
  }

  /** The document `new Post({...})` builds. */
  function NewPost(body: CreateBody, user: UserProfile, id: string, now: int): (p: PostRecord)
    ensures p.userId == body.userId
    ensures p.firstName == user.firstName && p.lastName == user.lastName
    ensures p.location == user.location && p.userPicturePath == user.picturePath
    ensures p.picturePath == body.picturePath
    ensures p.id == id && p.createdAt == now
    ensures p.description.Some? <==> body.description.Some?
    ensures body.description.Some? ==> p.description == Some(Trim(body.description.value))
    ensures p.description.Some? ==> IsTrimmed(p.description.value)
    ensures p.likes == map[] && p.comments == []
  {
    PostRecord(
      id, body.userId, user.firstName, user.lastName, user.location,
      match body.description case Some(d) => Some(Trim(d)) case None => None,
      body.picturePath, user.picturePath, map[], [], now)
  }

  /** The latest posts query run after the commit. */
  function Latest(all: seq<PostRecord>): seq<PostRecord> {
    Window(SortNewestFirst(all), 0, LatestCount)
  }

  /** Whether `createPost` reaches `commitTransaction`. */
  predicate Commits(users: map<string, UserProfile>, body: CreateBody, ev: CreateEvents) {
    !ev.lookupFails && body.userId in users && SaveWins(ev)
  }

  /** `createPost`. The session ends on every path and is never left open; the post
      reaches the collection exactly when `save` beats the timer and succeeds. */
  method CreatePost(posts: seq<PostRecord>, users: map<string, UserProfile>, body: CreateBody, ev: CreateEvents)
    returns (resp: CreateResponse, stored: seq<PostRecord>, session: Session)
    ensures session.ended && !Open(session.txn)
    ensures Commits(users, body, ev) ==>
              session.txn == Committed &&
              stored == posts + [NewPost(body, users[body.userId], ev.postId, ev.now)]
    ensures !Commits(users, body, ev) ==> session.txn == Aborted && stored == posts
    ensures ev.lookupFails ==> resp == CreateFailed
    ensures !ev.lookupFails && body.userId !in users ==> resp == UserNotFound
    ensures !ev.lookupFails && body.userId in users && !SaveWins(ev) ==> resp == CreateFailed
    ensures Commits(users, body, ev) && !ev.latestFails ==> resp == Created(Latest(stored))
    ensures Commits(users, body, ev) && ev.latestFails ==> resp == Unanswered
  {
    session := new Session();
    session.StartTransaction();
    stored := posts;
    var failed := false;
    if ev.lookupFails {
      failed := true;
    } else if body.userId !in users {
      resp := UserNotFound;
    } else {
      var post := NewPost(body, users[body.userId], ev.postId, ev.now);
      session.Write();
      if ev.saveSettlesAt < SaveTimeout && ev.saveOk {
        session.Commit();
        stored := posts + [post];
        if ev.latestFails {
          failed := true;
        } else {
          resp := Created(Latest(stored));
        }
      } else {
        failed := true;
      }
    }
    if failed {
      // the catch block: abort, then answer 500 unless the abort itself rejects
      var aborted := session.Abort();
      resp := if aborted then CreateFailed else Unanswered;
    }
    session.End();
  }
}
