/** The chat routes: creating a chat, listing a user's chats, formatting a
    page of messages, and resolving a media record to a signed URL. */
module Chats {
  import opened Common
  import opened Store
  import Serializer

  // ---------------------------------------------------------------------------
  // POST /create_chat

  /** Creates a chat under `newChatId` (the fresh `uuid4` text) unless both
      participants are the same user, which is refused before the store is
      touched. */
  method CreateChat(db: Database, isu1: int, isu2: int, newChatId: string) returns (r: Result<string>)
    modifies db
    ensures isu1 == isu2 ==>
              r == Err(HttpError(400, "chat cannot be created for the same user")) && db.chats == old(db.chats)
    ensures isu1 != isu2 ==> r == Ok(newChatId) && db.chats == old(db.chats) + [Chat(newChatId, isu1, isu2)]
    ensures db.likes == old(db.likes) && db.users == old(db.users) && db.results == old(db.results)
  {
    if isu1 == isu2 {
      return Err(HttpError(400, "chat cannot be created for the same user"));
    }
    db.CreateChat(newChatId, isu1, isu2);
    r := Ok(newChatId);
  }

  // ---------------------------------------------------------------------------
  // GET /user_chats/{isu}

  /** The `chats` list of the answer, given the chat documents
      `get_chats_by_user` returned: each one serialized, none dropped. */
  function ChatsForUser(chats: seq<Value>): (r: seq<Value>)
    ensures |r| == |chats|
    ensures forall i :: 0 <= i < |r| ==> r[i] == Serializer.Serialize(chats[i])
    ensures forall i :: 0 <= i < |r| ==> Serializer.Clean(r[i])
  {
    if chats == [] then []
    else seq(|chats|, i requires 0 <= i < |chats| => Serializer.Serialize(chats[i]))
  }

  // ---------------------------------------------------------------------------
  // GET /get_messages/{chat_id}

  /** A stored message; `None` is a key the document lacks. */
  datatype StoredMessage = StoredMessage(
    chatId: string, messageId: string, senderId: int, receiverId: int, timestamp: int,
    mediaId: Option<string>, text: Option<string>)

  /** A message as the route answers it; `None` is a key the answer lacks. */
  datatype FormattedMessage = FormattedMessage(
    chatId: string, messageId: string, senderId: int, receiverId: int, timestamp: int,
    mediaId: Option<string>, text: Option<string>)

  /** The message refers to media: `media_id` is present and non-empty. */
  predicate HasMedia(m: StoredMessage) {
    m.mediaId.Some? && m.mediaId.value != ""
  }

  /** One formatted message: the header fields, then either the media id or
      the text, never both. */
  function Format(m: StoredMessage): (f: FormattedMessage)
    ensures f.chatId == m.chatId && f.messageId == m.messageId && f.senderId == m.senderId
    ensures f.receiverId == m.receiverId && f.timestamp == m.timestamp
    ensures f.mediaId.Some? != f.text.Some?
    ensures f.mediaId.Some? <==> HasMedia(m)
    ensures f.mediaId.Some? ==> f.mediaId == m.mediaId
    ensures f.text.Some? ==> f.text.value == m.text.GetOr("")
  {
    var header := FormattedMessage(m.chatId, m.messageId, m.senderId, m.receiverId, m.timestamp, None, None);
    if HasMedia(m) then header.(mediaId := m.mediaId) else header.(text := Some(m.text.GetOr("")))
  }

  /** The `messages` list of the answer, given the page `get_messages`
      returned: one formatted message per stored one, in the same order. */
  method GetMessages(messages: seq<StoredMessage>) returns (formatted: seq<FormattedMessage>)
    ensures |formatted| == |messages|
    ensures forall i :: 0 <= i < |messages| ==> formatted[i] == Format(messages[i])
  {
    if messages == [] {
      return [];
    }
    formatted := [];
    for i := 0 to |messages|
      invariant |formatted| == i
      invariant forall j :: 0 <= j < i ==> formatted[j] == Format(messages[j])
    {
      formatted := formatted + [Format(messages[i])];
    }
  }

  // ---------------------------------------------------------------------------
  // GET /get_media

  const ImageKind := "image"
  const AudioKind := "audio"
  const VideoKind := "video"
  const FileKind := "file"

  /** `get_media_type_from_extension` once `mimetypes.guess_type` has guessed
      `mime` (`None` when it could not) for the URL's path. */
  function MediaKind(mime: Option<string>): (kind: string)
    ensures kind in {ImageKind, AudioKind, VideoKind, FileKind}
    ensures kind == ImageKind <==> mime.Some? && "image" <= mime.value
    ensures kind == AudioKind <==> mime.Some? && !("image" <= mime.value) && "audio" <= mime.value
    ensures kind == VideoKind <==>
              mime.Some? && !("image" <= mime.value) && !("audio" <= mime.value) && "video" <= mime.value
    ensures kind == FileKind <==>
              mime.None? || (!("image" <= mime.value) && !("audio" <= mime.value) && !("video" <= mime.value))
  {
    if mime.Some? && mime.value != "" then
      if "image" <= mime.value then ImageKind
      else if "audio" <= mime.value then AudioKind
      else if "video" <= mime.value then VideoKind
      else FileKind
    else FileKind
  }

  /** A record of the `media` collection; `None` is a key the document lacks. */
  datatype MediaDoc = MediaDoc(id: string, isu: Option<int>, chatId: Option<string>, path: Option<string>, createdAt: Option<int>)

  datatype MediaView = MediaView(mediaId: string, isu: Option<int>, chatId: Option<string>, url: string, mediaType: string, createdAt: Option<int>)

  /** The `/get_media` answer. `findMedia` is the lookup by ObjectId text,
      `presign` the URL signer, `guessMime` the MIME guess for a URL. */
  function GetMedia(mediaId: string, findMedia: string -> Option<MediaDoc>, bucket: string,
                    presign: string -> string, guessMime: string -> Option<string>): (r: Result<MediaView>)
    ensures ParseObjectId(mediaId).None? ==> r == Err(InternalError)
    ensures ParseObjectId(mediaId).Some? && findMedia(ParseObjectId(mediaId).value).None? ==>
              r == Err(HttpError(404, "Media not found"))
    ensures r.Ok? <==> ParseObjectId(mediaId).Some? && findMedia(ParseObjectId(mediaId).value).Some?
    ensures r.Ok? ==>
              var m := findMedia(ParseObjectId(mediaId).value).value;
              && r.value.url == presign(CleanObjectKey(bucket, m.path.GetOr("")))
              && r.value.mediaType == MediaKind(guessMime(r.value.url))
              && r.value.mediaId == m.id && r.value.isu == m.isu && r.value.chatId == m.chatId
              && r.value.createdAt == m.createdAt
  {
    var oid := ParseObjectId(mediaId);
    if oid.None? then Err(InternalError)
    else
      var media := findMedia(oid.value);
      if media.None? then Err(HttpError(404, "Media not found"))
      else
        var m := media.value;
        var path := CleanObjectKey(bucket, m.path.GetOr(""));
        var url := presign(path);
        Ok(MediaView(m.id, m.isu, m.chatId, url, MediaKind(guessMime(url)), m.createdAt))
  }
}
