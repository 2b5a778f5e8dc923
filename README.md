# ITMO-meet backend core, modelled in Dafny

ITMO-meet is a dating service for ITMO students. Its FastAPI backend stores
users, likes, chats, media and quiz results in MongoDB. It signs users in
through the university's identity provider and sends web-push notifications.
This project models the logic its route handlers carry out around the store:

- **Matching** (`Matches`):
  - the random candidate's profile, with its logo and photos turned into presigned URLs;
  - the like and superlike answers, and the reverse like and the chat a superlike adds;
  - blocking, which deletes the chat of a pair;
  - the "liked me" list.
- **Chats** (`Chats`):
  - refusing a chat with oneself;
  - serializing a user's chats;
  - formatting messages (media id or text, never both);
  - resolving a media record to a signed URL and a media kind.
- **Push** (`Push`): the process-wide registry from user id to subscriptions, the subscribe route that fills it, and the two senders that walk it.
- **Registration** (`Register`):
  - tag and relationship-preference selection;
  - the gender preference and the username;
  - the profile-details `$set`, which drops empty values;
  - upload object names;
  - the rule that every update route answers 404 when nothing was modified.
- **Login** (`Auth`):
  - the document a first-time user gets (group selection, the fixed `mainFeatures` layout);
  - the PKCE code-verifier filter and code-challenge padding strip (section 4 of RFC 7636);
  - where a login redirects to.
- **Serialization** (`Serializer`): turning ObjectIds into text through lists and dicts.
- **Quizzes** (`Quizes`): the test summary, starting an attempt, and reading a question, including Python's negative indexing.

`Common` holds the shared vocabulary:
- JSON-like values;
- HTTP errors and the `Result`/`Option` wrappers;
- Python's `int()` on text and `str()` on integers;
- ObjectId parsing;
- the bucket-prefix strip.

`Store` holds the collections the handlers write (`likes`, `chats`, `users`, quiz `results`) as a `Database` class.

How collaborators are modelled:
- **Parameters.** These collaborators are passed in:
  - MongoDB's reported counts;
  - the matching store's `like_user` report;
  - the identity provider's answer;
  - the presigning, upload, MIME-guessing and web-push functions;
  - fresh `uuid4`/`ObjectId()` texts.
- **Class methods.** The store operations whose code is not part of this model become methods of the `Database` class: the app's `Database.create_chat` and `create_result`, and the collections' `insert_one`. Each has the plain effect its name and its callers imply.
- **Absent keys.** A key a document lacks is `None`, and so is a JSON `null`.
- **Unhandled exceptions.** An exception the handler does not catch (`KeyError`, `TypeError`, `IndexError`, `InvalidId`) becomes the 500 response FastAPI sends for it (`InternalError`).

Where the tests and the code disagree, the model follows the code:
- `get_chats_for_user` answers an empty list, not 404.
- `select_preferences` stores a one-entry list.
- `get_messages` answers `{"messages": []}` for an empty page, not 404 "messages not found".
- `get_random_person` answers the presigned URL of the logo, not the stored logo.

## Model

| member | source | states |
|---|---|---|
| Common.DictGet | app/api/push.py:27-28 | `data.get(key)` finds a value iff the key is among the dict's keys, and the value is the one stored under it |
| Common.CleanObjectKey | app/api/matches.py:22-26 | the `<bucket>/` prefix is removed when the key starts with it; otherwise the key is returned unchanged |
| Common.CleanObjectKeyOnce | app/api/chats.py:118-121 | exactly one prefix is removed: prefix plus the result gives the key back, and a key with a doubled prefix keeps one copy |
| Common.Keep | app/api/auth.py:28 | the filtered text holds only characters satisfying the predicate, and every such character of the input |
| Common.KeepIdempotent | app/api/auth.py:35 | filtering a filtered text changes nothing |
| Common.IntToString | app/api/auth.py:177 | `str(n)` is a non-empty text of decimal digits, with a leading `-` exactly for negatives |
| Common.ParseInt | app/api/push.py:31-34 | `int(text)` succeeds exactly on an optional sign followed by one to 4300 digits (Python's default `sys.int_max_str_digits`) |
| Common.IntToStringRoundTrip | app/api/auth.py:177 | `int(str(n)) == n` for every integer whose magnitude has at most 4300 digits, which is when `str(n)` succeeds |
| Common.ParseObjectId | app/api/register.py:50-53 | `ObjectId(text)` accepts exactly 24 hexadecimal digits (any case); its text is 24 lower-case hexadecimal digits |
| Common.ParseObjectIdCanonical | app/api/register.py:51 | an id already in lower-case form is its own ObjectId text, so stored ids compare equal to parsed ones |
| Serializer.Serialize | app/utils/serializer.py:5-13 | an ObjectId becomes its text; a list keeps its length and serializes each item in order; a dict keeps its keys in order and serializes each value; anything else (tuples, sets included) is unchanged; the result holds no ObjectId reachable through lists and dicts |
| Serializer.SerializeFixesClean | app/utils/serializer.py:5-13 | a value with no reachable ObjectId is returned unchanged |
| Serializer.SerializeIdempotent | app/utils/serializer.py:5-13 | serializing twice equals serializing once |
| Store.Unanswered | tests/unit/db_test.py:148-172 | a fresh attempt has one `-1` answer per question |
| Store.Database.HasLike | app/api/matches.py:74-77 | `find_one` on `likes` finds a record iff a like with that user and target is stored |
| Store.Database.HasUser | app/api/auth.py:138-140 | `find_one` on `users` finds a document iff a stored user has that `isu` |
| Store.Database.InsertLike | app/api/matches.py:80-86 | `insert_one` appends the like record and touches no other collection |
| Store.Database.InsertUser | app/api/auth.py:184 | `insert_one` appends the user document and touches no other collection |
| Store.Database.CreateChat | app/api/chats.py:24 | `create_chat` stores one chat record with the given id and participants |
| Store.Database.CreateResult | tests/unit/db_test.py:148-172 | `create_result` stores an attempt with `answers = [-1] * n`, no score and `completed = False`, and reports its id |
| Matches.ProfileOf | app/api/matches.py:144-156 | the eleven profile fields, each with its default when the document lacks it (`""`, `[]`, `True`) |
| Matches.RandomPerson | app/api/matches.py:13-55 | no candidate gives 404 "No more persons available"; an empty or missing logo becomes `None`, otherwise the presigned URL of its cleaned key; photos map one-to-one and in order to presigned URLs (missing photos give `[]`); the other fields are the profile defaults |
| Matches.LikePerson | app/api/matches.py:58-69 | `matched` is what `like_user` reported; `chat_id` is present iff matched, with the reported chat |
| Matches.SuperlikePerson | app/api/matches.py:72-102 | afterwards the reverse like exists; it is inserted only when absent, so an existing one is never duplicated; the answer always reports a match with a chat id; a chat is added (`user`, `target`, fresh id) iff `like_user` did not report a match; users and results untouched |
| Matches.FirstChatBetween | app/api/matches.py:115-122 | the first chat whose participants are the pair in either order, or none iff no chat matches |
| Matches.RemoveAt | app/api/matches.py:115-122 | deleting one record keeps every other chat in order |
| Matches.RemoveAtMultiset | app/api/matches.py:115-122 | deletion removes exactly one occurrence of the deleted chat and nothing else |
| Matches.BlockPerson | app/api/matches.py:112-127 | succeeds iff a chat between the pair exists, deleting the first one only; otherwise the chats are unchanged and the answer is a 500 (the handler passes `details=`) |
| Matches.BlockRemovesOnePairChat | app/api/matches.py:115-122 | the deleted chat is between the pair, and the remaining chats are the old ones minus that one |
| Matches.Likers | app/api/matches.py:133-138 | the likers list is empty iff no like targets `isu`; every entry comes from a like of `isu`, and every such like contributes its user |
| Matches.UsersAmong | app/api/matches.py:140 | exactly the stored users whose `isu` is among the ids |
| Matches.UsersAmongConcat | app/api/matches.py:140 | the lookup keeps collection order: two stretches of the collection give the first stretch's users, then the second's |
| Matches.UsersAmongOne | app/api/matches.py:140 | a one-user collection gives that user iff its `isu` is asked for |
| Matches.LikersLookup | app/api/matches.py:133-140 | the users looked up are exactly the stored users who liked `isu` |
| Matches.LikedMe | app/api/matches.py:130-159 | `[]` when no like targets `isu`; otherwise one profile per matching user, in collection order; every profile belongs to someone who liked `isu`, and everyone who did is listed |
| Chats.CreateChat | app/api/chats.py:17-25 | the same user twice gives 400 and no chat is stored; otherwise exactly one chat is stored and its generated id is answered |
| Chats.ChatsForUser | app/api/chats.py:28-38 | one serialized chat per stored chat, in order, none holding an ObjectId |
| Chats.Format | app/api/chats.py:62-73 | the header fields are copied; `media_id` is present iff the message has a truthy one, otherwise `text` (default `""`), never both |
| Chats.GetMessages | app/api/chats.py:54-77 | same length and order as the page, each message formatted |
| Chats.MediaKind | app/api/chats.py:97-107 | `image`, `audio` or `video` by the first matching MIME prefix, and `file` iff the MIME type is absent or has none of them |
| Chats.GetMedia | app/api/chats.py:110-134 | an invalid id is a 500; an absent record is 404 "Media not found"; otherwise the URL is the presigned URL of the prefix-stripped path, its kind is classified, and the record's fields are copied |
| Push.WellFormed | app/api/push.py:36-40 | the registry invariant: each user once in the insertion order, each list non-empty and without repeats; the order then has exactly one entry per user |
| Push.Add | app/api/push.py:36-40 | after registration the subscription is in the user's list; it is appended only when absent; a new user goes at the end of the order; other users' lists are untouched; the registry stays well formed (no duplicates, no empty list) |
| Push.AddIdempotent | app/api/push.py:38-40 | subscribing twice equals subscribing once |
| Push.ToInt | app/api/push.py:31-34 | `int(v)` on a number is itself, on text succeeds iff the text is an integer literal (else `ValueError`), and on a list, dict or ObjectId raises `TypeError` |
| Push.SubscribeCheck | app/api/push.py:27-34 | a falsy subscription or missing user id gives 400 (the first message); an unconvertible text id gives 400 "user_id должен быть числом"; an id of the wrong type gives 500; otherwise the integer id |
| Push.Outcome | app/api/push.py:51-60 | the entry names its subscription; `sent` iff the push went out; `error` with the exception text iff it raised a `WebPushException` |
| Push.Outcomes | app/api/push.py:48-61 | when nothing escapes: one result per subscription, in order, each the outcome of its own push |
| Push.EscapesConcat | app/api/push.py:49-61 | an exception other than `WebPushException` escapes from two lists pushed in turn iff it escapes from one of them |
| Push.OutcomesConcat | app/api/push.py:49-50 | when nothing escapes, sending to one user's list after another's gives the first results followed by the second |
| Push.PushAll | app/api/push.py:50-60 | the inner loop yields exactly one outcome per subscription, in order, or stops iff some push raises an exception other than `WebPushException` |
| Push.Flatten | app/api/push.py:49-50 | the sender visits a subscription iff some registered user holds it |
| Push.EscapesInFlatten | app/api/push.py:49-61 | an uncaught exception in one user's pushes escapes from the walk over all users |
| Push.AllSubscriptions | app/api/push.py:49-50 | the subscriptions walked are exactly the stored ones |
| Push.SubscriptionRegistry.constructor | app/api/push.py:10 | the registry starts empty and well formed |
| Push.SubscriptionRegistry.Subscribe | app/api/push.py:18-41 | a rejected request leaves the registry unchanged; an accepted one applies `Add` and answers `ok`; the registry stays well formed |
| Push.SubscriptionRegistry.SendPush | app/api/push.py:43-61 | an empty registry gives 400 "Нет подписок"; an exception other than `WebPushException` from any push gives 500 and no results; otherwise one outcome per stored subscription, user by user in insertion order |
| Push.SubscriptionRegistry.SendPushInternally | app/api/push.py:63-78 | nothing is attempted for a user without an entry; an exception other than `WebPushException` from one of that user's pushes reaches the caller; otherwise one attempt per subscription of that user, `WebPushException` absorbed |
| Auth.SelectGroup | app/api/auth.py:157 | none iff there are no groups; otherwise a group with the largest course (missing counts as 0), the first one on ties |
| Auth.NewUser | app/api/auth.py:161-182 | the new record has empty username, bio, logo, photos, interests and preference lists and `isStudent = True`; `mainFeatures` is exactly height, zodiac_sign, weight, gender, birthdate, the first three empty; `itmo` holds faculty and course |
| Auth.FacultyText | app/api/auth.py:157-176 | the faculty text is empty with no group, and otherwise the faculty name of the selected group (`""` when it has none) |
| Auth.CourseText | app/api/auth.py:157-177 | the course text is empty iff there is no group or its course is missing or zero, and otherwise reads back as the course whenever `str` can print it (at most 4300 digits) |
| Auth.FillUserInfo | app/api/auth.py:153-184 | inserts exactly the new-user document |
| Auth.CodeVerifier | app/api/auth.py:25-28 | only ASCII letters and digits remain, and every such character of the encoded text is kept |
| Auth.CodeChallenge | app/api/auth.py:31-35 | no `=` remains, and every other character is kept |
| Auth.ChallengeOfDigest | app/api/auth.py:31-35 | the 44-character encoding of a 32-byte digest loses exactly its final `=` |
| Auth.LoginWithPassword | app/api/auth.py:38-145 | the test credentials redirect to `select_username` with isu 999999 and create that user only when absent; a failed provider round-trip answers its error and writes nothing; a known user goes to the dashboard and nothing is written; an unknown user is created and sent to `select_username` |
| Register.UpdateReply | app/api/register.py:26-28 | an update that modified nothing is 404 with the route's message; otherwise the success reply |
| Register.SelectUsername | app/api/register.py:21-28 | sets `username` on the user's document; nothing modified gives 404 "User not found or username not updated", otherwise "Username updated successfully" |
| Register.SelectPreferences | app/api/register.py:31-41 | sets `gender_preferences` to the single entry `{text: pref, icon: "gender_preferences"}`; nothing modified gives 404 "User not found or preference not updated", otherwise the success message |
| Register.ParseIds | app/api/register.py:50-53 | every id converts, or the whole list is refused |
| Register.FindTags | app/api/register.py:55 | exactly the stored tags whose id was requested (and, for preferences, that are special) |
| Register.FindTagsConcat | app/api/register.py:55 | the lookup keeps collection order: two stretches of the collection give the first stretch's tags, then the second's |
| Register.FindTagsOne | app/api/register.py:55 | a one-tag collection gives that tag iff it is selected |
| Register.FindTagsCount | app/api/register.py:55-57 | with unique `_id`s, the lookup finds one document per distinct matching id |
| Register.FindTagsShort | app/api/register.py:56-57 | when one requested id matches nothing, fewer documents come back than ids were requested |
| Register.Interests | app/api/register.py:59 | exactly the found tags with `is_special == 0`, each with icon `tag`; special tags are dropped |
| Register.InterestsConcat | app/api/register.py:59 | the interests keep the found order: two stretches give the first stretch's entries, then the second's |
| Register.InterestsOne | app/api/register.py:59 | one found tag gives its `{text: name, icon: "tag"}` entry iff it is not special, and nothing otherwise |
| Register.SelectTags | app/api/register.py:44-64 | a malformed id gives 400 "Invalid tag ID format"; a count mismatch gives 404 "Some tags do not exist"; otherwise the interests are set, and nothing modified gives 404 "User not found or tags not updated", otherwise the success message |
| Register.DuplicateTagRejected | app/api/register.py:55-57 | requesting the same tag twice always gives 404 "Some tags do not exist" |
| Register.RelationshipEntries | app/api/register.py:150-157 | each entry is `{id: str(_id), text: name, icon: "relationship_preferences"}`, one per found tag, in order |
| Register.SelectRelationship | app/api/register.py:131-167 | a malformed id gives 400; a count of special tags that differs from the request gives 404 "Some preferences do not exist"; otherwise the preferences are set, and nothing modified gives 404 "User not found or preferences not updated", otherwise the success message |
| Register.NonSpecialPreferenceRejected | app/api/register.py:142-147 | asking for a non-special tag as a relationship preference always gives 404 |
| Register.DetailsUpdate | app/api/register.py:117-123 | height goes to `mainFeatures.0.text` as `"<h> cm"`, the zodiac sign to `.1`, weight to `.2` as `"<w> kg"`, bio to `bio`; each is present iff its value is truthy, and no written value is empty |
| Register.ProfileDetails | app/api/register.py:113-128 | sends the details `$set`; nothing modified gives 404 "User not found or profile details not updated", otherwise the success message |
| Register.DetailsMatchNewUserLayout | app/api/register.py:119-121 | on a new user's record the details land on the `height`, `zodiac_sign` and `weight` entries, and the gender and birthdate entries are kept |
| Register.Extension | app/api/register.py:71 | the extension never contains a dot and is no longer than the name |
| Register.ExtensionIsLastSegment | app/api/register.py:71 | the extension is a suffix of the name, preceded by a dot exactly when the name has one: the text after the last dot, or the whole name when there is no dot |
| Register.ExtensionAfterDot | app/api/register.py:71-72 | the extension of `<name>.<ext>` is `ext` when `ext` has no dot |
| Register.ObjectName | app/api/register.py:71-72 | the object name starts with its folder and a slash and keeps the uploaded file's extension |
| Register.UploadLogo | app/api/register.py:67-83 | sets `logo` to the URL of the uploaded `logos/<isu>_<uuid>.<ext>` and answers that URL; nothing modified gives 404 "User not found or logo not uploaded" |
| Register.UploadCarousel | app/api/register.py:86-110 | one URL per file, in upload order, each for `carousel/<isu>_<uuid>.<ext>`; they are stored as `photos` and answered; nothing modified gives 404 "User not found or carousel photos not updated" |
| Quizes.GetTestInfo | app/api/quizes.py:9-20 | a missing test gives 404 "Test not found"; a test without `question_ids` gives 500; otherwise name, description and `questions_count = len(question_ids)` |
| Quizes.StartTest | app/api/quizes.py:23-34 | a missing test gives 404 and no result is created; otherwise one attempt sized to the test's question count is created, and an empty id gives 500 "Error creating test results" |
| Quizes.PyIndex | app/api/quizes.py:48 | `xs[n]` reads position `n`, or `len + n` for `-len <= n < 0`, and fails below `-len` |
| Quizes.GetQuestion | app/api/quizes.py:37-54 | a missing test gives 404; a number at or past the end gives 404 "Question not found"; a number below `-len` gives 500; a failed question lookup gives 500; otherwise the question at the Python index, echoing the requested number |
| Quizes.QuestionPastEndIgnoresLookup | app/api/quizes.py:45-46 | a number past the end never depends on the question lookup |
| Quizes.NegativeQuestionNumber | app/api/quizes.py:45-48 | question `-k` is question `len - k` |

## Left out

- Network I/O is left out. This covers the identity-provider round trip of the login route (authorization page, form post, token and user-info requests), `aiohttp` sessions, `webpush` delivery, MinIO uploads and presigned URLs, and `mimetypes.guess_type`. Each one enters as a parameter or as its result.
- SHA-256, URL-safe base64, `os.urandom`, `uuid4` and `ObjectId()` generation are foreign primitives. Their outputs are parameters.
- `Database.like_user`, `dislike_user`, `get_random_person` (with its sampling and exclusion filters), `get_chats_by_user`, `get_messages`, `get_test` and `get_question_by_id` are not part of this model. Their results are parameters.
- `Database.create_chat`, `create_result` and the collections' `insert_one` appear only with the plain effect their callers imply.
- MongoDB's `update_one` with dotted paths is not executed. The registration routes return the `$set` they send, and `modified_count` is a parameter. `ApplyFeatureTexts` shows the three dotted paths only on a record that has those positions.
- The `dislike_person` route only forwards to `dislike_user`, so it adds nothing to model.
- `send_message` only forwards to the store. `upload_media` names its object `media/<chat_id>/<isu>_<uuid>.<ext>`, with the same extension rule as `ObjectName`, then uploads it and stores the media record. It is outside the modelled routes.
- Floating-point formatting is a parameter. `f"{h} cm"` uses Python's float-to-text.
- The quiz score is left out.
- Concurrency is left out. Every request is one sequential step, so races between two handlers (for example the two sides of a mutual like) are not modelled.
- Dicts are ordered entry lists. Python compares dicts without regard to order, so two registries or subscriptions that Python finds equal may differ here.
- A JSON `null` and a missing key are both `None`. The code sometimes tells them apart. For example, with two or more groups, `max` raises a `TypeError` when it compares an explicit `null` course with a number. The model reads that course as 0. With a single group nothing is compared, and both forms give the empty course text the model gives.
- A request body is an entry list that may repeat a key, and `DictGet` reads the first entry with that key. A parsed JSON body keeps the last one, so bodies with repeated keys are not modelled faithfully.
- The pushes that went out before an uncaught `webpush` exception are not recorded, because the senders' results are lost at that point.
- Common.ParseInt: does not accept the surrounding whitespace, the underscores or the non-ASCII digits Python's `int()` allows.
- Common.IntToString: does not raise the `ValueError` that `str(n)` raises for more than 4300 digits. The course and `isu` values it formats are short, and `StrFits` names the bound where it matters.
- Common.ParseObjectId: does not model a 12-byte `bytes` id. Only 24-character texts are parsed.
- Push.ToInt: a float is not converted by truncation, because request bodies are modelled with integer numbers only.
- Quizes.GetQuestion: the question lookup is one function from question id to description. A missing question and a question without a description are both the same 500.
- `rollbar_handler` is treated as the identity. Rollbar reporting is left out.
- Matches.LikePerson: does not model a `like_user` report whose `chat_id` key is missing. The report always carries a chat id.
