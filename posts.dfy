/**
 * The posts controller: the like toggle (`likePost`), the per-user listing
 * (`getUserPosts`) and post creation (`createPost`), over a store of post
 * documents kept in insertion order.
 */
module Posts {
  import opened Common

  type PostId = string

  /** A post document; `likes` maps a user id to a "liked" marker. */
  datatype Post = Post(
    id: PostId,
    userId: UserId,
    firstName: string,
    lastName: string,
    location: string,
    description: string,
    userPicturePath: string,
    picturePath: string,
    likes: map<UserId, bool>,
    comments: seq<string>)

  /** `likes.get(userId)` is truthy: present and `true`. */
  predicate IsLiked(likes: map<UserId, bool>, user: UserId) {
    user in likes && likes[user]
  }

  /** The liked-map after `user` toggles: a truthy entry is deleted, otherwise it is set to `true`. */
  function Toggle(likes: map<UserId, bool>, user: UserId): (r: map<UserId, bool>) {
    if IsLiked(likes, user) then likes - {user} else likes[user := true]
  }

  /**
   * A key that Mongoose's `Map.prototype.set` accepts. It refuses a key that
   * starts with `$`, one that contains `.`, and the reserved property names.
   */
  predicate IsMapKey(key: UserId) {
    && !(|key| > 0 && key[0] == '$')
    && (forall i :: 0 <= i < |key| ==> key[i] != '.')
    && key != "__proto__" && key != "constructor" && key != "prototype"
  }

  /** The message of the error that `set` throws for a key it refuses. */
  function MapKeyMessage(key: UserId): (r: string)
    requires !IsMapKey(key)
  {
    if |key| > 0 && key[0] == '$' then
      "Mongoose maps do not support keys that start with \"$\", got \"" + key + "\""
    else if exists i :: 0 <= i < |key| && key[i] == '.' then
      "Mongoose maps do not support keys that contain \".\", got \"" + key + "\""
    else
      "Mongoose maps do not support reserved key name \"" + key + "\""
  }

  /** A user id that contains a dot and does not start with `$` is refused, with the message naming the dot. */
  lemma DottedKeyRefused(key: UserId, i: nat)
    requires i < |key| && key[i] == '.'
    requires !(|key| > 0 && key[0] == '$')
    ensures !IsMapKey(key)
    ensures MapKeyMessage(key) == "Mongoose maps do not support keys that contain \".\", got \"" + key + "\""
  {
  }

  /** The intended invariant: entries are removed on unlike, never set to `false`. */
  ghost predicate AllTrue(likes: map<UserId, bool>) {
    forall k :: k in likes ==> likes[k]
  }

  // ---------------------------------------------------------------------------
  // Properties of the toggle

  /** A user who liked the post no longer appears in the map. */
  lemma ToggleUnlikes(likes: map<UserId, bool>, user: UserId)
    requires IsLiked(likes, user)
    ensures user !in Toggle(likes, user)
  {
  }

  /** A user who had not liked the post (absent or `false`) now likes it. */
  lemma ToggleLikes(likes: map<UserId, bool>, user: UserId)
    requires !IsLiked(likes, user)
    ensures user in Toggle(likes, user) && Toggle(likes, user)[user]
  {
  }

  /** The toggle flips whether `user` likes the post. */
  lemma ToggleFlips(likes: map<UserId, bool>, user: UserId)
    ensures IsLiked(Toggle(likes, user), user) <==> !IsLiked(likes, user)
  {
  }

  /** Every other user's entry is untouched: the map changes at one key only. */
  lemma ToggleFrame(likes: map<UserId, bool>, user: UserId, other: UserId)
    requires other != user
    ensures other in Toggle(likes, user) <==> other in likes
    ensures other in likes ==> Toggle(likes, user)[other] == likes[other]
  {
  }

  /** The all-true invariant is kept, and the number of likes moves by exactly one. */
  lemma ToggleKeepsAllTrue(likes: map<UserId, bool>, user: UserId)
    requires AllTrue(likes)
    ensures AllTrue(Toggle(likes, user))
    ensures user in likes ==> |Toggle(likes, user)| == |likes| - 1
    ensures user !in likes ==> |Toggle(likes, user)| == |likes| + 1
  {
    if user in likes {
      assert Toggle(likes, user).Keys == likes.Keys - {user};
    } else {
      assert Toggle(likes, user).Keys == likes.Keys + {user};
    }
  }

  /** Under the all-true invariant, toggling twice gives back the original map. */
  lemma ToggleTwice(likes: map<UserId, bool>, user: UserId)
    requires AllTrue(likes)
    ensures Toggle(Toggle(likes, user), user) == likes
  {
    if user in likes {
      assert likes - {user} + map[user := true] == likes;
    } else {
      assert likes[user := true] - {user} == likes;
    }
  }

  /**
   * Without the invariant two toggles need not restore the map: a user whose
   * own entry is `false` ends with no entry at all.
   */
  lemma ToggleTwiceNeedsAllTrue(likes: map<UserId, bool>, user: UserId)
    requires user in likes && !likes[user]
    ensures Toggle(Toggle(likes, user), user) == likes - {user}
    ensures Toggle(Toggle(likes, user), user) != likes
  {
    assert user !in Toggle(Toggle(likes, user), user);
  }

  // ---------------------------------------------------------------------------
  // The per-user listing

  /** `a` is `b` with some elements left out, the rest kept in order. */
  ghost predicate IsSubsequence(a: seq<Post>, b: seq<Post>)
    decreases |b|
  {
    if a == [] then true
    else if b == [] then false
    else (a[0] == b[0] && IsSubsequence(a[1..], b[1..])) || IsSubsequence(a, b[1..])
  }

  /** `Post.find({ userId })`: the stored posts of `user`, in store order. */
  function UserPosts(posts: seq<Post>, user: UserId): (r: seq<Post>)
    ensures |r| <= |posts|
    decreases |posts|
  {
    if posts == [] then []
    else if posts[0].userId == user then [posts[0]] + UserPosts(posts[1..], user)
    else UserPosts(posts[1..], user)
  }

  /** The listing holds exactly the stored posts of `user`, as a subsequence of the store. */
  lemma {:induction false} UserPostsExact(posts: seq<Post>, user: UserId)
    ensures forall p :: p in UserPosts(posts, user) ==> p in posts && p.userId == user
    ensures forall p :: p in posts && p.userId == user ==> p in UserPosts(posts, user)
    ensures IsSubsequence(UserPosts(posts, user), posts)
    decreases |posts|
  {
    if posts != [] {
      UserPostsExact(posts[1..], user);
      assert posts == [posts[0]] + posts[1..];
    }
  }

  /** The listing of a concatenation is the concatenation of the listings: store order is kept. */
  lemma {:induction false} UserPostsAppend(a: seq<Post>, b: seq<Post>, user: UserId)
    ensures UserPosts(a + b, user) == UserPosts(a, user) + UserPosts(b, user)
    decreases |a|
  {
    if a == [] {
      assert a + b == b;
    } else {
      assert (a + b)[1..] == a[1..] + b;
      UserPostsAppend(a[1..], b, user);
    }
  }

  // ---------------------------------------------------------------------------
  // The store and the handlers

  /** MongoDB's `_id` index: no two stored posts share an id. */
  predicate UniqueIds(posts: seq<Post>) {
    forall i, j :: 0 <= i < j < |posts| ==> posts[i].id != posts[j].id
  }

  /** Every key of a stored liked-map is one Mongoose's map accepts, since `set` is the only way in. */
  ghost predicate MapKeysValid(posts: seq<Post>) {
    forall i, k :: 0 <= i < |posts| && k in posts[i].likes ==> IsMapKey(k)
  }

  /** `Post.findById(id)`: the position of the post with that id. */
  function FindPost(posts: seq<Post>, id: PostId): (r: Option<nat>) {
    FirstMatch(posts, (p: Post) => p.id == id)
  }

  /** With unique ids, `findById` finds the one stored post that has the id. */
  lemma FindPostUnique(posts: seq<Post>, id: PostId, k: nat)
    requires UniqueIds(posts)
    requires k < |posts| && posts[k].id == id
    ensures FindPost(posts, id) == Some(k)
  {
    var r := FindPost(posts, id);
    assert r.Some?;
    assert posts[r.value].id == id;
  }

  /** Replacing posts without changing any id does not change where an id is found. */
  lemma FindPostSameIds(a: seq<Post>, b: seq<Post>, id: PostId)
    requires |a| == |b|
    requires forall k :: 0 <= k < |a| ==> a[k].id == b[k].id
    ensures FindPost(a, id) == FindPost(b, id)
  {
    var fa, fb := FindPost(a, id), FindPost(b, id);
    if fa.Some? {
      assert b[fa.value].id == id;
    }
  }

  /** The reply of `likePost`. */
  datatype LikeReply = LikeUpdated(msg: string, data: Post) | LikeFailed(reply: Reply)

  /** The message of the TypeError raised by reading `likes` of a missing (null) post. */
  const NullLikesMessage := "Cannot read properties of null (reading 'likes')"

  /** The message of the ReferenceError raised by the unimported `User` model. */
  const UserNotDefinedMessage := "User is not defined"

  /** Writing back a liked-map whose keys Mongoose accepts keeps ids unique and every stored key valid. */
  lemma WriteBackKeepsValid(posts: seq<Post>, i: nat, likes: map<UserId, bool>)
    requires UniqueIds(posts) && MapKeysValid(posts) && i < |posts|
    requires forall k :: k in likes ==> IsMapKey(k)
    ensures UniqueIds(posts[i := posts[i].(likes := likes)])
    ensures MapKeysValid(posts[i := posts[i].(likes := likes)])
    ensures forall k :: 0 <= k < |posts| ==> posts[i := posts[i].(likes := likes)][k].id == posts[k].id
  {
  }

  class PostStore {
    var posts: seq<Post>

    ghost predicate Valid()
      reads this
    {
      UniqueIds(posts) && MapKeysValid(posts)
    }

    /** Every stored liked-map satisfies the all-true invariant. */
    ghost predicate AllLikesTrue()
      reads this
    {
      forall i :: 0 <= i < |posts| ==> AllTrue(posts[i].likes)
    }

    constructor (initial: seq<Post>)
      requires UniqueIds(initial) && MapKeysValid(initial)
      ensures Valid() && posts == initial
    {
      posts := initial;
    }

    /**
     * `likePost`: toggles `userId` in the liked-map of the post with `id` and
     * writes the map back. A missing post, or a key the map's `set` refuses,
     * ends in the 404 reply with the store untouched.
     */
    method LikePost(id: PostId, userId: UserId) returns (reply: LikeReply)
      requires Valid()
      modifies this
      ensures Valid()
      ensures FindPost(old(posts), id).None? ==>
        reply == LikeFailed(Reply(404, NullLikesMessage)) && posts == old(posts)
      ensures FindPost(old(posts), id).Some? && !IsMapKey(userId) ==>
        reply == LikeFailed(Reply(404, MapKeyMessage(userId))) && posts == old(posts)
      ensures FindPost(old(posts), id).Some? && IsMapKey(userId) ==>
        var i := FindPost(old(posts), id).value;
        && posts == old(posts)[i := old(posts)[i].(likes := Toggle(old(posts)[i].likes, userId))]
        && reply == LikeUpdated("Post updated successfully", posts[i])
      ensures old(AllLikesTrue()) ==> AllLikesTrue()
    {
      var found := FindPost(posts, id);
      if found.None? {
        // `post` is null: reading `post.likes` throws, and the handler answers 404
        reply := LikeFailed(Reply(404, NullLikesMessage));
        return;
      }
      var post := posts[found.value];
      var likes := post.likes;
      if IsLiked(likes, userId) {
        assert IsMapKey(userId);
        likes := likes - {userId};
      } else if !IsMapKey(userId) {
        // `post.likes.set(userId, true)` throws, and the handler answers 404
        reply := LikeFailed(Reply(404, MapKeyMessage(userId)));
        return;
      } else {
        likes := likes[userId := true];
      }
      ghost var before := posts;
      // `Post.findByIdAndUpdate(id, { likes }, { new: true })`
      var target := FindPost(posts, id);
      var i := target.value;
      posts := posts[i := posts[i].(likes := likes)];
      reply := LikeUpdated("Post updated successfully", posts[i]);
      WriteBackKeepsValid(before, i, likes);
      if forall k :: 0 <= k < |before| ==> AllTrue(before[k].likes) {
        ToggleKeepsAllTrue(before[i].likes, userId);
      }
    }

    /**
     * `createPost`: the handler looks the author up through a `User` model
     * that the file never imports, so it always throws before saving and
     * answers 409; the store is not touched.
     */
    method CreatePost(userId: UserId, description: string, picturePath: string) returns (reply: Reply)
      ensures reply == Reply(409, UserNotDefinedMessage)
    {
      reply := Reply(409, UserNotDefinedMessage);
    }
  }

  /**
   * When every stored liked-map is all-true, two likes of the same post by the
   * same user leave the store as it was.
   */
  method LikeTwiceRestores(store: PostStore, id: PostId, userId: UserId) returns (first: LikeReply, second: LikeReply)
    requires store.Valid() && store.AllLikesTrue()
    modifies store
    ensures store.Valid() && store.posts == old(store.posts)
    ensures FindPost(old(store.posts), id).None? || !IsMapKey(userId) <==> first.LikeFailed? && second.LikeFailed?
    ensures FindPost(old(store.posts), id).Some? && IsMapKey(userId) ==> first.LikeUpdated? && second.LikeUpdated?
  {
    ghost var p0 := store.posts;
    first := store.LikePost(id, userId);
    ghost var p1 := store.posts;
    FindPostSameIds(p0, p1, id);
    second := store.LikePost(id, userId);
    if FindPost(p0, id).Some? && IsMapKey(userId) {
      var i := FindPost(p0, id).value;
      ToggleTwice(p0[i].likes, userId);
      assert store.posts == p0;
    }
  }
}
