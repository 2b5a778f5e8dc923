/** The matching routes: the random candidate, like, superlike, block and
    "liked me". The matching store's own methods (`like_user`,
    `get_random_person`) are collaborators whose results arrive here as
    parameters; the bookkeeping the routes do around them is modelled. */
module Matches {
  import opened Common
  import opened Store

  /** The eleven-field profile payload both `/random_person` and `/liked_me` answer with. */
  datatype Profile = Profile(
    isu: int,
    username: string,
    bio: string,
    logo: Option<string>,      // None is JSON null
    photos: seq<string>,
    mainFeatures: seq<Entry>,
    interests: seq<Entry>,
    itmo: seq<Entry>,
    genderPreferences: seq<Entry>,
    relationshipPreferences: seq<Entry>,
    isStudent: bool)

  /** The profile payload of a stored user: each field falls back to its
      default when the document lacks it. */
  function ProfileOf(u: UserDoc): (p: Profile)
    ensures p.isu == u.isu
    ensures p.username == u.username.GetOr("") && p.bio == u.bio.GetOr("")
    ensures p.logo == Some(u.logo.GetOr(""))
    ensures p.photos == u.photos.GetOr([]) && p.mainFeatures == u.mainFeatures.GetOr([])
    ensures p.interests == u.interests.GetOr([]) && p.itmo == u.itmo.GetOr([])
    ensures p.genderPreferences == u.genderPreferences.GetOr([])
    ensures p.relationshipPreferences == u.relationshipPreferences.GetOr([])
    ensures p.isStudent == u.isStudent.GetOr(true)
  {
    Profile(u.isu, u.username.GetOr(""), u.bio.GetOr(""), Some(u.logo.GetOr("")),
            u.photos.GetOr([]), u.mainFeatures.GetOr([]), u.interests.GetOr([]),
            u.itmo.GetOr([]), u.genderPreferences.GetOr([]),
            u.relationshipPreferences.GetOr([]), u.isStudent.GetOr(true))
  }

  // ---------------------------------------------------------------------------
  // GET /random_person

  /** The stored logo, when it is a non-empty text. */
  predicate HasLogo(u: UserDoc) {
    u.logo.Some? && u.logo.value != ""
  }

  /** The `/random_person` answer for the candidate `get_random_person`
      returned (`None` when it found none). Logo and photos are rewritten into
      presigned URLs of their object keys; `presign` is the URL signer. */
  function RandomPerson(person: Option<UserDoc>, bucket: string, presign: string -> string): (r: Result<Profile>)
    ensures person.None? <==> r.Err?
    ensures r.Err? ==> r.error == HttpError(404, "No more persons available")
    ensures r.Ok? ==> r.value.isu == person.value.isu
    ensures r.Ok? ==> (r.value.logo.None? <==> !HasLogo(person.value))
    ensures r.Ok? && HasLogo(person.value) ==>
              r.value.logo == Some(presign(CleanObjectKey(bucket, person.value.logo.value)))
    ensures r.Ok? ==> |r.value.photos| == |person.value.photos.GetOr([])|
    ensures r.Ok? ==> forall i :: 0 <= i < |r.value.photos| ==>
              r.value.photos[i] == presign(CleanObjectKey(bucket, person.value.photos.value[i]))
    ensures r.Ok? ==> r.value == ProfileOf(person.value).(logo := r.value.logo, photos := r.value.photos)
  {
    if person.None? then Err(HttpError(404, "No more persons available"))
    else
      var u := person.value;
      var logo := if HasLogo(u) then Some(presign(CleanObjectKey(bucket, u.logo.value))) else None;
      var stored := u.photos.GetOr([]);
      var photos := seq(|stored|, i requires 0 <= i < |stored| => presign(CleanObjectKey(bucket, stored[i])));
      Ok(ProfileOf(u).(logo := logo, photos := photos))
  }

  // ---------------------------------------------------------------------------
  // POST /like_person

  /** What `like_user` reports: whether the like completed a match, and the
      chat of that match. */
  datatype LikeReport = LikeReport(matched: bool, chatId: string)

  /** A like/superlike answer; `chatId` is `None` when the key is absent. */
  datatype LikeResponse = LikeResponse(message: string, matched: bool, chatId: Option<string>)

  const MatchMessage := "You have a match!"

  function LikePerson(report: LikeReport): (r: LikeResponse)
    ensures r.matched == report.matched
    ensures r.chatId.Some? <==> report.matched
    ensures report.matched ==> r == LikeResponse(MatchMessage, true, Some(report.chatId))
    ensures !report.matched ==> r.message == "person liked successfully"
  {
    if report.matched then LikeResponse(MatchMessage, true, Some(report.chatId))
    else LikeResponse("person liked successfully", false, None)
  }

  // ---------------------------------------------------------------------------
  // POST /superlike_person

  /** The superlike route after `like_user(user, target)` has reported
      `report`: it back-fills the reverse like when none is stored, and opens
      a chat under `newChatId` (the fresh `ObjectId`) unless the like already
      matched. */
  method SuperlikePerson(db: Database, userId: int, targetId: int, report: LikeReport, newChatId: string)
    returns (r: LikeResponse)
    modifies db
    ensures db.HasLike(targetId, userId)
    ensures old(db.HasLike(targetId, userId)) ==> db.likes == old(db.likes)
    ensures !old(db.HasLike(targetId, userId)) ==> db.likes == old(db.likes) + [Like(targetId, userId)]
    ensures r.matched && r.message == MatchMessage && r.chatId.Some?
    ensures report.matched ==> r.chatId == Some(report.chatId) && db.chats == old(db.chats)
    ensures !report.matched ==>
              r.chatId == Some(newChatId) && db.chats == old(db.chats) + [Chat(newChatId, userId, targetId)]
    ensures db.users == old(db.users) && db.results == old(db.results)
  {
    var reverseLike := db.HasLike(targetId, userId);
    if !reverseLike {
      db.InsertLike(targetId, userId);
      assert db.likes[|db.likes| - 1] == Like(targetId, userId);
    }
    if report.matched {
      r := LikeResponse(MatchMessage, true, Some(report.chatId));
    } else {
      ghost var before := db.likes;
      db.CreateChat(newChatId, userId, targetId);
      assert db.likes == before;
      r := LikeResponse(MatchMessage, true, Some(newChatId));
    }
  }

  // ---------------------------------------------------------------------------
  // POST /block_person

  /** The chat is between `a` and `b`, in either order. */
  predicate Between(c: Chat, a: int, b: int) {
    (c.isu1 == a && c.isu2 == b) || (c.isu1 == b && c.isu2 == a)
  }

  /** The position of the first chat between `a` and `b`: the document that
      `delete_one` with the `$or` filter removes. */
  function FirstChatBetween(chats: seq<Chat>, a: int, b: int): (r: Option<nat>)
    ensures r.None? <==> forall i :: 0 <= i < |chats| ==> !Between(chats[i], a, b)
    ensures r.Some? ==> r.value < |chats| && Between(chats[r.value], a, b)
    ensures r.Some? ==> forall j :: 0 <= j < r.value ==> !Between(chats[j], a, b)
  {
    if chats == [] then None
    else if Between(chats[0], a, b) then Some(0)
    else
      var rest := FirstChatBetween(chats[1..], a, b);
      assert forall i :: 1 <= i < |chats| ==> chats[i] == chats[1..][i - 1];
      if rest.None? then None else Some(rest.value + 1)
  }

  /** Removes the chat at position `i`. */
  function RemoveAt(chats: seq<Chat>, i: nat): (r: seq<Chat>)
    requires i < |chats|
    ensures |r| == |chats| - 1
    ensures forall j :: 0 <= j < i ==> r[j] == chats[j]
    ensures forall j :: i <= j < |r| ==> r[j] == chats[j + 1]
  {
    chats[..i] + chats[i + 1..]
  }

  /** Removing one chat removes exactly that record: every other chat is still
      there, as often as before. */
  lemma RemoveAtMultiset(chats: seq<Chat>, i: nat)
    requires i < |chats|
    ensures multiset(RemoveAt(chats, i)) + multiset{chats[i]} == multiset(chats)
  {
    assert chats == chats[..i] + [chats[i]] + chats[i + 1..];
  }

  /** Blocking: deletes the first chat between the two users. When there is
      none, the handler raises `HTTPException(..., details=...)`, which is not
      a keyword `HTTPException` accepts, so the client gets a 500. */
  method BlockPerson(db: Database, userId: int, targetId: int) returns (r: Result<string>)
    modifies db
    ensures db.likes == old(db.likes) && db.users == old(db.users) && db.results == old(db.results)
    ensures r.Ok? <==> FirstChatBetween(old(db.chats), userId, targetId).Some?
    ensures r.Ok? ==>
              var i := FirstChatBetween(old(db.chats), userId, targetId).value;
              r.value == "user blocked, chat deleted" && db.chats == RemoveAt(old(db.chats), i)
    ensures r.Err? ==> r.error == InternalError && db.chats == old(db.chats)
  {
    var found := FirstChatBetween(db.chats, userId, targetId);
    var deletedCount := 0;
    if found.Some? {
      db.chats := RemoveAt(db.chats, found.value);
      deletedCount := 1;
    }
    if deletedCount > 0 {
      r := Ok("user blocked, chat deleted");
    } else {
      r := Err(InternalError);
    }
  }

  /** A successful block removes one chat between the pair and no other chat. */
  lemma BlockRemovesOnePairChat(chats: seq<Chat>, a: int, b: int)
    requires FirstChatBetween(chats, a, b).Some?
    ensures var i := FirstChatBetween(chats, a, b).value;
            Between(chats[i], a, b) &&
            multiset(RemoveAt(chats, i)) + multiset{chats[i]} == multiset(chats)
  {
    RemoveAtMultiset(chats, FirstChatBetween(chats, a, b).value);
  }

  // ---------------------------------------------------------------------------
  // GET /liked_me

  /** `[like["user_id"] for like in likes.find({"target_id": isu})]` */
  function Likers(likes: seq<Like>, isu: int): (ids: seq<int>)
    ensures ids == [] <==> forall i :: 0 <= i < |likes| ==> likes[i].targetId != isu
    ensures forall k :: 0 <= k < |ids| ==>
              exists i :: 0 <= i < |likes| && likes[i] == Like(ids[k], isu)
    ensures forall i :: 0 <= i < |likes| && likes[i].targetId == isu ==> likes[i].userId in ids
  {
    if likes == [] then []
    else
      var rest := Likers(likes[1..], isu);
      assert forall i :: 1 <= i < |likes| ==> likes[i] == likes[1..][i - 1];
      if likes[0].targetId == isu then [likes[0].userId] + rest else rest
  }

  /** `users.find({"isu": {"$in": ids}})`, in collection order. */
  function UsersAmong(users: seq<UserDoc>, ids: seq<int>): (r: seq<UserDoc>)
    ensures |r| <= |users| && (ids == [] ==> r == [])
    ensures forall k :: 0 <= k < |r| ==> r[k] in users && r[k].isu in ids
    ensures forall u :: u in users && u.isu in ids ==> u in r
  {
    if users == [] then []
    else
      var rest := UsersAmong(users[1..], ids);
      if users[0].isu in ids then [users[0]] + rest else rest
  }

  /** The lookup keeps collection order: two stretches of the collection give
      the first stretch's users, then the second's. */
  lemma {:induction false} UsersAmongConcat(a: seq<UserDoc>, b: seq<UserDoc>, ids: seq<int>)
    ensures UsersAmong(a + b, ids) == UsersAmong(a, ids) + UsersAmong(b, ids)
  {
    if a == [] {
      assert a + b == b;
    } else {
      assert (a + b)[1..] == a[1..] + b;
      UsersAmongConcat(a[1..], b, ids);
    }
  }

  /** A one-user collection gives that user exactly when its `isu` is asked for. */
  lemma UsersAmongOne(u: UserDoc, ids: seq<int>)
    ensures UsersAmong([u], ids) == if u.isu in ids then [u] else []
  {
    assert [u][1..] == [];
  }

  /** Someone listed in `likes` liked `isu`. */
  predicate Liked(likes: seq<Like>, liker: int, isu: int) {
    exists i :: 0 <= i < |likes| && likes[i] == Like(liker, isu)
  }

  /** The users the route looks up are exactly the stored users who liked `isu`. */
  lemma LikersLookup(likes: seq<Like>, users: seq<UserDoc>, isu: int)
    ensures forall u :: u in UsersAmong(users, Likers(likes, isu)) ==> Liked(likes, u.isu, isu)
    ensures forall u :: u in users && Liked(likes, u.isu, isu) ==> u in UsersAmong(users, Likers(likes, isu))
  {
    var likers := Likers(likes, isu);
    var found := UsersAmong(users, likers);
    forall u | u in found ensures Liked(likes, u.isu, isu) {
      var k :| 0 <= k < |found| && found[k] == u;
      var j :| 0 <= j < |likers| && likers[j] == u.isu;
    }
    forall u | u in users && Liked(likes, u.isu, isu) ensures u in found {
      var i :| 0 <= i < |likes| && likes[i] == Like(u.isu, isu);
      assert likes[i].targetId == isu;
    }
  }

  /** The `/liked_me` answer: the profile of every user who liked `isu`. */
  method LikedMe(db: Database, isu: int) returns (result: seq<Profile>)
    ensures (forall i :: 0 <= i < |db.likes| ==> db.likes[i].targetId != isu) ==> result == []
    ensures var liked := UsersAmong(db.users, Likers(db.likes, isu));
            |result| == |liked| && forall k :: 0 <= k < |result| ==> result[k] == ProfileOf(liked[k])
    ensures forall k :: 0 <= k < |result| ==> Liked(db.likes, result[k].isu, isu)
    ensures forall u :: u in db.users && Liked(db.likes, u.isu, isu) ==> ProfileOf(u) in result
  {
    var likes, stored := db.likes, db.users;
    var likers := Likers(likes, isu);
    if likers == [] {
      return [];
    }
    var users := UsersAmong(stored, likers);
    result := [];
    for k := 0 to |users|
      invariant |result| == k
      invariant forall j :: 0 <= j < k ==> result[j] == ProfileOf(users[j])
    {
      result := result + [ProfileOf(users[k])];
    }
    LikersLookup(likes, stored, isu);
    forall k | 0 <= k < |result| ensures Liked(likes, result[k].isu, isu) {
      assert users[k] in users;
    }
    forall u | u in stored && Liked(likes, u.isu, isu) ensures ProfileOf(u) in result {
      var j :| 0 <= j < |users| && users[j] == u;
      assert result[j] == ProfileOf(u);
    }
  }
}
