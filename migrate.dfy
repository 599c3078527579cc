/** The record rewrites of scripts/migrate.js. Each user and each post is
    normalised and saved; a save that fails is logged and skipped, and the
    counters count the saves that succeeded. `ObjectId.isValid` is the predicate
    `isValid`, the ids `ObjectId()` generates come from `newId`, the outcome of
    each `save` from `saves`, and `new Date()` is `now`. */
module Migrate {
  import opened Wrappers
  import opened JsString
  import AuthController

  // ---------------------------------------------------------------- users

  datatype FriendsField = FriendList(ids: seq<string>) | NotAList

  /** A user document as read back; absent (or null) fields are `None`. */
  datatype UserDoc = UserDoc(
    friends: FriendsField,
    viewedProfile: Option<int>,
    impressions: Option<int>,
    email: Option<string>,
    firstName: Option<string>,
    lastName: Option<string>)

  /** `value || 0` on a number field: absent and 0 both become 0. */
  function OrZero(v: Option<int>): int {
    if v.None? then 0 else v.value
  }

  /** `friends.map(f => isValid(f) ? f : ObjectId())`; the `j`-th generated id is `gen(j)`. */
  function MigrateFriends(f: FriendsField, isValid: string -> bool, gen: nat -> string): seq<string> {
    match f
    case NotAList => []
    case FriendList(ids) => seq(|ids|, j requires 0 <= j < |ids| => if isValid(ids[j]) then ids[j] else gen(j))
  }

  /** `x?.trim()` and `x?.toLowerCase().trim()`: an absent field stays absent. */
  function TrimField(x: Option<string>): Option<string> {
    match x
    case Some(s) => Some(Trim(s))
    case None => None
  }

  function EmailField(x: Option<string>): Option<string> {
    match x
    case Some(s) => Some(Trim(ToLower(s)))
    case None => None
  }

  /** The body of the user loop before `save`: the fields the schema needs, a
      friends list and both counters, are always set afterwards. */
  function MigrateUser(u: UserDoc, isValid: string -> bool, gen: nat -> string): (r: UserDoc)
    ensures r.friends.FriendList? && r.viewedProfile.Some? && r.impressions.Some?
    ensures u.friends.FriendList? ==> |r.friends.ids| == |u.friends.ids|
  {
    UserDoc(
      FriendList(MigrateFriends(u.friends, isValid, gen)),
      Some(OrZero(u.viewedProfile)),
      Some(OrZero(u.impressions)),
      EmailField(u.email),
      TrimField(u.firstName),
      TrimField(u.lastName))
  }

  /** Friends: a non-list becomes empty; a list keeps its length and order, with
      each invalid id replaced by the id generated for its position. */
  lemma FriendsMigrated(u: UserDoc, isValid: string -> bool, gen: nat -> string)
    ensures var f := MigrateUser(u, isValid, gen).friends;
            && f.FriendList?
            && (u.friends.NotAList? ==> f.ids == [])
            && (u.friends.FriendList? ==>
                  && |f.ids| == |u.friends.ids|
                  && forall j :: 0 <= j < |f.ids| ==>
                       f.ids[j] == if isValid(u.friends.ids[j]) then u.friends.ids[j] else gen(j))
  {
  }

  /** The counters are set to 0 exactly when falsy and are otherwise kept; the
      email is stored as `register` stores it, the names trimmed, and an absent
      field stays absent. */
  lemma ScalarsMigrated(u: UserDoc, isValid: string -> bool, gen: nat -> string)
    ensures var r := MigrateUser(u, isValid, gen);
            && (r.viewedProfile == Some(0) <==> u.viewedProfile.None? || u.viewedProfile == Some(0))
            && (u.viewedProfile.Some? ==> r.viewedProfile == u.viewedProfile)
            && (r.impressions == Some(0) <==> u.impressions.None? || u.impressions == Some(0))
            && (u.impressions.Some? ==> r.impressions == u.impressions)
            && (r.email.Some? <==> u.email.Some?)
            && (u.email.Some? ==> r.email.value == AuthController.StoredEmail(u.email.value))
            && (r.firstName.Some? <==> u.firstName.Some?)
            && (u.firstName.Some? ==> r.firstName == Some(Trim(u.firstName.value)))
            && (r.lastName.Some? <==> u.lastName.Some?)
            && (u.lastName.Some? ==> r.lastName == Some(Trim(u.lastName.value)))
  {
  }

  /** A migrated email is lower-case and trimmed, the form the login lookup expects. */
  lemma MigratedEmailNormal(u: UserDoc, isValid: string -> bool, gen: nat -> string)
    requires u.email.Some?
    ensures IsTrimmed(MigrateUser(u, isValid, gen).email.value)
    ensures IsLower(MigrateUser(u, isValid, gen).email.value)
  {
    AuthController.StoredEmailNormal(u.email.value);
  }

  lemma EmailFieldIdempotent(x: Option<string>)
    ensures EmailField(EmailField(x)) == EmailField(x)
  {
    if x.Some? {
      var e := Trim(ToLower(x.value));
      AuthController.StoredEmailNormal(x.value);
      LowerFixedIff(e);
      assert ToLower(e) == e;
      TrimFixedIff(e);
      assert Trim(e) == e;
    }
  }

  lemma TrimFieldIdempotent(x: Option<string>)
    ensures TrimField(TrimField(x)) == TrimField(x)
  {
    if x.Some? {
      TrimIdempotent(x.value);
    }
  }

  /** When generated ids are valid, running the user migration twice is running it once. */
  lemma MigrateUserIdempotent(u: UserDoc, isValid: string -> bool, gen: nat -> string)
    requires forall j :: isValid(gen(j))
    ensures MigrateUser(MigrateUser(u, isValid, gen), isValid, gen) == MigrateUser(u, isValid, gen)
  {
    var ids := MigrateFriends(u.friends, isValid, gen);
    assert MigrateFriends(FriendList(ids), isValid, gen) == ids;
    EmailFieldIdempotent(u.email);
    TrimFieldIdempotent(u.firstName);
    TrimFieldIdempotent(u.lastName);
  }

  // ---------------------------------------------------------------- posts

  /** A user reference held as a plain string or as an ObjectId. */
  datatype Ref = StringRef(s: string) | ObjectRef(s: string)

  datatype LikesField =
    | LikesMap(m: map<string, bool>)     // already a `Map`
    | LikesObject(m: map<string, bool>)  // a plain object
    | NoLikes                            // absent or null

  datatype CommentField =
    | TextComment(body: string)
    | ObjectComment(userId: Option<Ref>, text: Option<string>, createdAt: Option<int>)
    | NullComment  // `typeof null === "object"`: reading `.text` of it throws

  datatype PostDoc = PostDoc(
    userId: Ref,
    likes: LikesField,
    comments: Option<seq<CommentField>>,
    createdAt: Option<int>)

  /** A string `userId` becomes an ObjectId: itself when valid, else the generated `id`. */
  function MigrateUserId(r: Ref, isValid: string -> bool, id: string): Ref {
    match r
    case StringRef(s) => if isValid(s) then ObjectRef(s) else ObjectRef(id)
    case ObjectRef(_) => r
  }

  /** A `Map` is left alone; anything else becomes a `Map` of its entries with a valid key. */
  function MigrateLikes(l: LikesField, isValid: string -> bool): LikesField {
    match l
    case LikesMap(_) => l
    case LikesObject(m) => LikesMap(map k | k in m && isValid(k) :: m[k])
    case NoLikes => LikesMap(map[])
  }

  /** One step of `comments.map`; `userId` is the post's already migrated owner. */
  function MigrateComment(c: CommentField, userId: Ref, postCreatedAt: Option<int>, now: int): (r: CommentField)
    requires !c.NullComment?
    ensures r.ObjectComment? && r.text.Some? && IsTrimmed(r.text.value) && r.createdAt.Some?
    ensures c.TextComment? ==> r.userId == Some(userId)
    ensures c.ObjectComment? ==> r.userId == c.userId
  {
    match c
    case TextComment(t) => ObjectComment(Some(userId), Some(Trim(t)), Some(postCreatedAt.GetOr(now)))
    case ObjectComment(u, t, at) =>
      ObjectComment(u, Some(if t.None? then "" else Trim(t.value)), Some(at.GetOr(now)))
  }

  predicate HasNullComment(cs: seq<CommentField>) {
    exists j :: 0 <= j < |cs| && cs[j].NullComment?
  }

  /** The body of the post loop before `save`; `None` when it throws. */
  function MigratePost(p: PostDoc, isValid: string -> bool, id: string, now: int): (r: Option<PostDoc>)
    ensures r.None? <==> HasNullComment(p.comments.GetOr([]))
    ensures r.Some? ==>
              && r.value.userId.ObjectRef? && r.value.likes.LikesMap?
              && r.value.createdAt == p.createdAt
              && r.value.comments.Some? && |r.value.comments.value| == |p.comments.GetOr([])|
              && forall j :: 0 <= j < |r.value.comments.value| ==> r.value.comments.value[j].ObjectComment?
  {
    var cs := p.comments.GetOr([]);
    if HasNullComment(cs) then None
    else
      var owner := MigrateUserId(p.userId, isValid, id);
      Some(PostDoc(
        owner,
        MigrateLikes(p.likes, isValid),
        Some(seq(|cs|, j requires 0 <= j < |cs| => MigrateComment(cs[j], owner, p.createdAt, now))),
        p.createdAt))
  }

  /** Owner and likes after the rewrite: an ObjectId owner, and a `Map` of likes whose
      keys, unless it was a `Map` already, are the valid ones of the original. */
  lemma OwnerAndLikesMigrated(p: PostDoc, isValid: string -> bool, id: string, now: int)
    requires MigratePost(p, isValid, id, now).Some?
    ensures var q := MigratePost(p, isValid, id, now).value;
            && q.userId.ObjectRef?
            && (p.userId.StringRef? && isValid(p.userId.s) ==> q.userId.s == p.userId.s)
            && (p.userId.StringRef? && !isValid(p.userId.s) ==> q.userId.s == id)
            && (p.userId.ObjectRef? ==> q.userId == p.userId)
            && q.likes.LikesMap?
            && (p.likes.LikesMap? ==> q.likes == p.likes)
            && (p.likes.LikesObject? ==>
                  forall k :: k in q.likes.m <==> k in p.likes.m && isValid(k))
            && (p.likes.LikesObject? ==>
                  forall k :: k in q.likes.m ==> q.likes.m[k] == p.likes.m[k])
            && (p.likes.NoLikes? ==> q.likes.m == map[])
  {
  }

  /** Comments keep their number and order; a string comment becomes an object owned by
      the post's owner, dated by the post; an object comment keeps its owner, gets its
      text trimmed (or `""`) and keeps its date or gets `now`. */
  lemma CommentsMigrated(p: PostDoc, isValid: string -> bool, id: string, now: int)
    requires MigratePost(p, isValid, id, now).Some?
    ensures var q := MigratePost(p, isValid, id, now).value;
            var cs := p.comments.GetOr([]);
            && q.comments.Some? && |q.comments.value| == |cs|
            && forall j :: 0 <= j < |cs| ==>
                 q.comments.value[j] ==
                   match cs[j]
                   case TextComment(t) =>
                     ObjectComment(Some(q.userId), Some(Trim(t)), Some(p.createdAt.GetOr(now)))
                   case ObjectComment(u, t, at) =>
                     ObjectComment(u, Some(if t.None? then "" else Trim(t.value)), Some(at.GetOr(now)))
                   case NullComment => NullComment
  {
  }

  /** A null comment makes the whole rewrite throw, so the post is neither saved nor counted. */
  lemma NullCommentThrows(p: PostDoc, isValid: string -> bool, id: string, now: int)
    ensures MigratePost(p, isValid, id, now).None? <==>
              p.comments.Some? && exists j :: 0 <= j < |p.comments.value| && p.comments.value[j].NullComment?
  {
  }

  /** A migrated comment is an object comment that a second pass leaves alone,
      whatever post fields that pass sees. */
  lemma CommentIdempotent(c: CommentField, owner: Ref, at: Option<int>, owner': Ref, at': Option<int>, now: int)
    requires !c.NullComment?
    ensures MigrateComment(c, owner, at, now).ObjectComment?
    ensures MigrateComment(MigrateComment(c, owner, at, now), owner', at', now) == MigrateComment(c, owner, at, now)
  {
    var once := MigrateComment(c, owner, at, now);
    var text := once.text.value;
    assert text == if c.TextComment? then Trim(c.body) else if c.text.None? then "" else Trim(c.text.value);
    assert Trim(text) == text by {
      if c.TextComment? {
        TrimIdempotent(c.body);
      } else if c.text.Some? {
        TrimIdempotent(c.text.value);
      }
    }
    assert MigrateComment(once, owner', at', now) == ObjectComment(once.userId, Some(Trim(text)), once.createdAt);
  }

  /** Running the post migration on its own output changes nothing. */
  lemma MigratePostIdempotent(p: PostDoc, isValid: string -> bool, id: string, now: int)
    requires MigratePost(p, isValid, id, now).Some?
    ensures MigratePost(MigratePost(p, isValid, id, now).value, isValid, id, now) == MigratePost(p, isValid, id, now)
  {
    var q := MigratePost(p, isValid, id, now).value;
    var src := p.comments.GetOr([]);
    var cs := q.comments.value;
    forall j | 0 <= j < |cs|
      ensures !cs[j].NullComment?
      ensures MigrateComment(cs[j], q.userId, q.createdAt, now) == cs[j]
    {
      CommentIdempotent(src[j], q.userId, p.createdAt, q.userId, q.createdAt, now);
    }
    assert !HasNullComment(cs);
    var again := seq(|cs|, j requires 0 <= j < |cs| => MigrateComment(cs[j], q.userId, q.createdAt, now));
    assert again == cs;
  }

  // ---------------------------------------------------------------- loops

  /** How many of the first `n` saves succeed. */
  function Saved(n: nat, saves: nat -> bool): (c: nat)
    ensures c <= n
  {
    if n == 0 then 0 else Saved(n - 1, saves) + (if saves(n - 1) then 1 else 0)
  }

  /** Every record counts exactly when no save fails. */
  lemma {:induction false} SavedAllIff(n: nat, saves: nat -> bool)
    ensures Saved(n, saves) == n <==> forall i :: 0 <= i < n ==> saves(i)
  {
    if n > 0 {
      SavedAllIff(n - 1, saves);
      if Saved(n, saves) == n {
        assert Saved(n - 1, saves) == n - 1 && saves(n - 1);
      }
    }
  }

  /** The ids generated while migrating user `i`. */
  function UserIds(newId: (nat, nat) -> string, i: nat): nat -> string {
    (j: nat) => newId(i, j)
  }

  /** The user loop: every user is rewritten and saved in turn; a failed save leaves
      that user as it was and does not stop the loop. */
  method MigrateUsers(users: seq<UserDoc>, isValid: string -> bool, newId: (nat, nat) -> string,
                      saves: nat -> bool) returns (stored: seq<UserDoc>, userCount: nat)
    ensures |stored| == |users|
    ensures forall i :: 0 <= i < |users| ==>
              stored[i] == if saves(i) then MigrateUser(users[i], isValid, UserIds(newId, i)) else users[i]
    ensures userCount == Saved(|users|, saves)
  {
    stored := [];
    userCount := 0;
    var i := 0;
    while i < |users|
      invariant 0 <= i <= |users|
      invariant |stored| == i
      invariant forall k :: 0 <= k < i ==>
                  stored[k] == if saves(k) then MigrateUser(users[k], isValid, UserIds(newId, k)) else users[k]
      invariant userCount == Saved(i, saves)
    {
      var user := MigrateUser(users[i], isValid, UserIds(newId, i));
      if saves(i) {
        stored := stored + [user];
        userCount := userCount + 1;
      } else {
        stored := stored + [users[i]];
      }
      i := i + 1;
    }
  }

  /** Whether post `i` is rewritten without throwing and then saved. */
  predicate PostMigrated(posts: seq<PostDoc>, i: nat, isValid: string -> bool, newId: nat -> string,
                         now: int, saves: nat -> bool)
  {
    i < |posts| && MigratePost(posts[i], isValid, newId(i), now).Some? && saves(i)
  }

  /** How many of the first `n` posts are migrated. */
  function PostsSaved(posts: seq<PostDoc>, n: nat, isValid: string -> bool, newId: nat -> string,
                      now: int, saves: nat -> bool): (c: nat)
    ensures c <= n
  {
    if n == 0 then 0
    else PostsSaved(posts, n - 1, isValid, newId, now, saves)
         + (if PostMigrated(posts, n - 1, isValid, newId, now, saves) then 1 else 0)
  }

  /** The post loop; a rewrite that throws is caught like a failed save. */
  method MigratePosts(posts: seq<PostDoc>, isValid: string -> bool, newId: nat -> string, now: int,
                      saves: nat -> bool) returns (stored: seq<PostDoc>, postCount: nat)
    ensures |stored| == |posts|
    ensures forall i :: 0 <= i < |posts| ==>
              stored[i] == if PostMigrated(posts, i, isValid, newId, now, saves)
                           then MigratePost(posts[i], isValid, newId(i), now).value
                           else posts[i]
    ensures postCount == PostsSaved(posts, |posts|, isValid, newId, now, saves)
  {
    stored := [];
    postCount := 0;
    var i := 0;
    while i < |posts|
      invariant 0 <= i <= |posts|
      invariant |stored| == i
      invariant forall k :: 0 <= k < i ==>
                  stored[k] == if PostMigrated(posts, k, isValid, newId, now, saves)
                               then MigratePost(posts[k], isValid, newId(k), now).value
                               else posts[k]
      invariant postCount == PostsSaved(posts, i, isValid, newId, now, saves)
    {
      var migrated := MigratePost(posts[i], isValid, newId(i), now);
      if migrated.Some? && saves(i) {
        stored := stored + [migrated.value];
        postCount := postCount + 1;
      } else {
        stored := stored + [posts[i]];
      }
      i := i + 1;
    }
  }
}
