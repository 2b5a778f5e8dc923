/** The document store the route handlers share: the `likes`, `chats`,
    `users` and quiz `results` collections of the `meet` database, and the
    record shapes stored in them. The `Database` methods other than
    `get_collection` are not part of this model's sources, so the few the
    handlers call are given here the plain effect their names and the
    handlers' use imply. */
module Store {
  import opened Common

  /** One record of the `likes` collection (its `created_at` clock value is left out). */
  datatype Like = Like(userId: int, targetId: int)

  /** One record of the `chats` collection. */
  datatype Chat = Chat(chatId: string, isu1: int, isu2: int)

  /** A `{"text": ..., "icon": ...}` entry of a profile list; relationship
      preferences also carry the tag id. */
  datatype Entry = Entry(id: Option<string>, text: string, icon: string)

  /** A stored user document. `None` is a key the document lacks. */
  datatype UserDoc = UserDoc(
    isu: int,
    username: Option<string>,
    bio: Option<string>,
    logo: Option<string>,
    photos: Option<seq<string>>,
    mainFeatures: Option<seq<Entry>>,
    interests: Option<seq<Entry>>,
    itmo: Option<seq<Entry>>,
    genderPreferences: Option<seq<Entry>>,
    relationshipPreferences: Option<seq<Entry>>,
    isStudent: Option<bool>)

  /** One record of the quiz `results` collection. */
  datatype QuizResult = QuizResult(
    resultId: string, userId: int, testId: string,
    answers: seq<int>, score: Option<int>, completed: bool)

  /** The answers of a quiz attempt that has not been answered yet: one `-1`
      per question. */
  function Unanswered(n: nat): (a: seq<int>)
    ensures |a| == n && forall i :: 0 <= i < n ==> a[i] == -1
  {
    seq(n, _ => -1)
  }

  class Database {
    var likes: seq<Like>
    var chats: seq<Chat>
    var users: seq<UserDoc>
    var results: seq<QuizResult>

    constructor ()
      ensures likes == [] && chats == [] && users == [] && results == []
    {
      likes, chats, users, results := [], [], [], [];
    }

    /** `likes.find_one({"user_id": u, "target_id": t})` finds something. */
    predicate HasLike(userId: int, targetId: int): (found: bool)
      reads this
      ensures found <==> Like(userId, targetId) in likes
    {
      exists i :: 0 <= i < |likes| && likes[i] == Like(userId, targetId)
    }

    /** `users.find_one({"isu": isu})` finds something. */
    predicate HasUser(isu: int): (found: bool)
      reads this
      ensures found <==> exists u :: u in users && u.isu == isu
    {
      exists i :: 0 <= i < |users| && users[i].isu == isu
    }

    /** `likes.insert_one(...)` */
    method InsertLike(userId: int, targetId: int)
      modifies this
      ensures likes == old(likes) + [Like(userId, targetId)]
      ensures chats == old(chats) && users == old(users) && results == old(results)
    {
      likes := likes + [Like(userId, targetId)];
    }

    /** `users.insert_one(...)` */
    method InsertUser(doc: UserDoc)
      modifies this
      ensures users == old(users) + [doc]
      ensures likes == old(likes) && chats == old(chats) && results == old(results)
    {
      users := users + [doc];
    }

    /** `Database.create_chat(chat_id, isu_1, isu_2)`: stores one chat record. */
    method CreateChat(chatId: string, isu1: int, isu2: int)
      modifies this
      ensures chats == old(chats) + [Chat(chatId, isu1, isu2)]
      ensures likes == old(likes) && users == old(users) && results == old(results)
    {
      chats := chats + [Chat(chatId, isu1, isu2)];
    }

    /** `Database.create_result(user_id, test_id, questions_count)`: stores a
        fresh attempt (every answer `-1`, no score, not completed) and reports
        the inserted id, which the database chooses. */
    method CreateResult(userId: int, testId: string, questionsCount: nat, insertedId: string)
      returns (resultId: string)
      modifies this
      ensures resultId == insertedId
      ensures results == old(results) + [QuizResult(insertedId, userId, testId, Unanswered(questionsCount), None, false)]
      ensures likes == old(likes) && chats == old(chats) && users == old(users)
    {
      results := results + [QuizResult(insertedId, userId, testId, Unanswered(questionsCount), None, false)];
      resultId := insertedId;
    }
  }
}
