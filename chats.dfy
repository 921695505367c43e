/** The chat endpoints of the server (`chats.py`): the user's chats, their messages, and
    sending a message, which stores it, asks the chat model with the recent history and
    stores the answer.

    As in the account endpoints, each endpoint is a method on the database whose contract
    ties it to a function over the tables. The image analysis (`groq_vision`) and the chat
    model (`groq_chat`) are oracles: the analysis is the answer the vision service gave for
    the uploaded image (None when the call raised), and the chat model is a function from
    the message list it is sent to its answer (None when the call raised). Coordinates
    arrive as the text Python prints for the submitted floats. */
module Chats {
  import opened Wrappers
  import Text
  import Decimal
  import Db
  import Http
  import Files
  import Settings
  import Sorting

  const DefaultTitle: string := "Katara"
  const ChatNotFound: Http.Failure := Http.Failure(404, "Chat no encontrado.")
  const ImageTooLarge: Http.Failure := Http.Failure(413, "Imagen demasiado grande (máx 10MB).")
  /** An exception that escapes the handler. */
  const ServerError: Http.Failure := Http.Failure(500, "Internal Server Error")

  /** The largest image accepted, in bytes. */
  const MaxImageBytes: nat := 10 * 1024 * 1024
  /** How many of the newest messages of the chat are sent to the model. */
  const HistoryLimit: nat := 20
  /** The stored text of a message sent with no text. */
  const ImagePlaceholder: string := "(imagen)"
  /** The analysis stored when the vision call raised. */
  const VisionFailed: string := "{\"error\":\"vision_failed\"}"
  /** The upload name used when the image came without one. */
  const DefaultImageName: string := "image.jpg"

  // ------------------------------------------------------------------ the model's input

  /** One entry of the message list sent to the chat model. */
  datatype Prompt =
    | SystemPrompt
    | VisionContext(json: string)
    | Location(lat: string, lon: string)
    | Turn(role: string, content: string)
    | DefaultQuestion

  /** The `role` of the entry. */
  function Role(p: Prompt): string {
    match p
    case Turn(role, _) => role
    case DefaultQuestion => "user"
    case _ => "system"
  }

  /** The `content` of the entry. */
  function Content(p: Prompt): string {
    match p
    case SystemPrompt =>
      "Eres Katara, un asistente inteligente de reciclaje y sostenibilidad en Guayaquil, Ecuador. "
      + "Hablas en español claro, cercano y práctico. "
      + "Nunca menciones modelos, APIs, ni detalles internos. "
      + "Si no estás segura, pregunta una aclaración corta y luego sugiere una opción segura."
    case VisionContext(json) => "Contexto interno (análisis JSON): " + json
    case Location(lat, lon) => "Ubicación aproximada del usuario: lat=" + lat + ", lon=" + lon + "."
    case Turn(_, content) => content
    case DefaultQuestion => "¿Qué es esto y cómo debo desecharlo o reciclarlo en Guayaquil?"
  }

  // ------------------------------------------------------------------ queries

  function OwnedBy(userId: int): Db.Chat -> bool {
    (c: Db.Chat) => c.userId == userId
  }

  function InChat(chatId: int): Db.Message -> bool {
    (m: Db.Message) => m.chatId == chatId
  }

  /** `SELECT 1 FROM chats WHERE id=? AND user_id=?` finds a row. */
  predicate Owns(t: Db.Tables, chatId: int, userId: int) {
    chatId in t.chats && t.chats[chatId].userId == userId
  }

  /** `SELECT ... FROM chats WHERE user_id=? ORDER BY id`. */
  function UserChats(t: Db.Tables, userId: int): seq<(int, Db.Chat)> {
    Db.Select(t.chats, OwnedBy(userId), 1, t.nextChatId)
  }

  /** `SELECT ... FROM messages WHERE chat_id=? ORDER BY id ASC`. */
  function ChatMessages(t: Db.Tables, chatId: int): seq<(int, Db.Message)> {
    Db.Select(t.messages, InChat(chatId), 1, t.nextMessageId)
  }

  /** The last `n` elements (all of them when there are fewer). */
  function LastN<T>(s: seq<T>, n: nat): (r: seq<T>)
    ensures |r| <= n && |r| <= |s|
    ensures r == s[|s| - |r|..]
    ensures |s| <= n ==> r == s
    ensures |s| >= n ==> |r| == n
  {
    if |s| <= n then s else s[|s| - n..]
  }

  /** `ORDER BY id DESC LIMIT 20`, reversed: the newest twenty messages of the chat, oldest first. */
  function History(t: Db.Tables, chatId: int): seq<(int, Db.Message)> {
    LastN(ChatMessages(t, chatId), HistoryLimit)
  }

  // ------------------------------------------------------------------ steps

  /** `INSERT INTO chats(user_id,title,created_at,updated_at)` under the next id. */
  function AddChat(t: Db.Tables, userId: int, title: string, now: int): Db.Tables {
    t.(chats := t.chats[t.nextChatId := Db.Chat(userId, title, now, now)], nextChatId := t.nextChatId + 1)
  }

  /** The `INSERT INTO messages` of one message, then `UPDATE chats SET updated_at=? WHERE id=?`. */
  function Post(t: Db.Tables, chatId: int, role: string, content: string, path: Option<string>, now: int): Db.Tables
    requires chatId in t.chats
  {
    t.(messages := t.messages[t.nextMessageId := Db.Message(chatId, role, content, path, now)],
       nextMessageId := t.nextMessageId + 1,
       chats := t.chats[chatId := t.chats[chatId].(updatedAt := now)])
  }

  /** The chat the default endpoints use, and the tables once it exists. */
  datatype Ensured = Ensured(after: Db.Tables, chatId: int)

  /** `_ensure_default_chat`: the user's chat of lowest id, or a new chat titled `Katara`,
      whose id the re-query then finds (lemma `EnsureDefaultChatFound`). */
  function EnsureDefault(t: Db.Tables, userId: int, now: int): Ensured {
    var owned := UserChats(t, userId);
    if owned != [] then Ensured(t, owned[0].0)
    else Ensured(AddChat(t, userId, DefaultTitle, now), t.nextChatId)
  }

  // ------------------------------------------------------------------ list_chats / create_chat

  datatype ChatOut = ChatOut(id: int, title: string)

  /** The rows of `SELECT id,title FROM chats WHERE ...`, keyed for `ORDER BY updated_at DESC`. */
  function Recency(rows: seq<(int, Db.Chat)>): (r: seq<(real, ChatOut)>)
    ensures |r| == |rows|
    ensures forall i :: 0 <= i < |rows| ==> r[i] == (-(rows[i].1.updatedAt as real), ChatOut(rows[i].0, rows[i].1.title))
  {
    seq(|rows|, i requires 0 <= i < |rows| => (-(rows[i].1.updatedAt as real), ChatOut(rows[i].0, rows[i].1.title)))
  }

  /** The user's chats, most recently updated first; chats updated at the same moment keep
      their id order. */
  function Newest(t: Db.Tables, userId: int): seq<ChatOut> {
    Sorting.Values(Sorting.SortByKey(Recency(UserChats(t, userId))))
  }

  datatype Listed = Listed(after: Db.Tables, chats: seq<ChatOut>)

  /** `list_chats`: a user without chats first gets the default one. */
  function ListOutcome(t: Db.Tables, userId: int, now: int): Listed {
    if UserChats(t, userId) != [] then Listed(t, Newest(t, userId))
    else
      var e := EnsureDefault(t, userId, now);
      Listed(e.after, Newest(e.after, userId))
  }

  datatype Created = Created(after: Db.Tables, chatId: int)

  /** The title `create_chat` stores: the form's `title`, or `Katara` when it was left out or
      sent empty. */
  function ChatTitle(title: Option<string>): (r: string)
    ensures r != ""
    ensures Text.Truthy(title) ==> r == title.value
    ensures !Text.Truthy(title) ==> r == DefaultTitle
  {
    Http.FormField(title).GetOr(DefaultTitle)
  }

  /** `create_chat`: the title defaults to `Katara`; the answer carries `last_insert_rowid()`. */
  function CreateOutcome(t: Db.Tables, userId: int, title: Option<string>, now: int): Created {
    Created(AddChat(t, userId, ChatTitle(title), now), t.nextChatId)
  }

  // ------------------------------------------------------------------ get_messages

  datatype MessageOut = MessageOut(id: int, role: string, content: string, imageUrl: Option<string>, createdAt: int)

  /** The public URL of a stored chat image: `{PUBLIC_BASE_URL}/uploads/chat/<basename>`,
      when the stored path is not empty. */
  function ImageUrl(base: string, path: Option<string>): Option<string> {
    if Text.Truthy(path) then Some(base + "/uploads/chat/" + Text.Basename(path.value)) else None
  }

  /** One row of the answer. */
  function Shown(base: string, id: int, m: Db.Message): MessageOut {
    MessageOut(id, m.role, m.content, ImageUrl(base, m.imagePath), m.createdAt)
  }

  /** The rows of the answer, one per message, in order. */
  function Listing(base: string, rows: seq<(int, Db.Message)>): (r: seq<MessageOut>)
    ensures |r| == |rows|
    decreases |rows|
  {
    if rows == [] then []
    else Listing(base, rows[..|rows| - 1]) + [Shown(base, rows[|rows| - 1].0, rows[|rows| - 1].1)]
  }

  /** `get_messages`. */
  function MessagesOutcome(t: Db.Tables, s: Settings.Config, chatId: int, userId: int): Result<seq<MessageOut>, Http.Failure> {
    if !Owns(t, chatId, userId) then Err(ChatNotFound)
    else Ok(Listing(s.publicBaseUrl, ChatMessages(t, chatId)))
  }

  // ------------------------------------------------------------------ send_message

  /** The file name of an uploaded chat image: `unique_filename(f"chat_{chat_id}_{user_id}", ...)`. */
  function UploadName(chatId: int, userId: int, image: Http.Upload, now: int): string {
    var original := if Text.Truthy(image.filename) then image.filename.value else DefaultImageName;
    Files.UniqueFilename("chat_" + Decimal.IntToString(chatId) + "_" + Decimal.IntToString(userId), Some(original), now)
  }

  /** `os.path.join(upload_dir, "chat", fname)`. */
  function UploadPath(uploadDir: string, name: string): string {
    Text.PathJoin(Text.PathJoin(uploadDir, "chat"), name)
  }

  /** Where the image of the request is written, if one came. */
  function UploadTarget(uploadDir: string, chatId: int, userId: int, image: Option<Http.Upload>, now: int): Option<string> {
    if image.Some? then Some(UploadPath(uploadDir, UploadName(chatId, userId, image.value, now))) else None
  }

  /** The analysis put in the context: none without an image, the placeholder when the
      vision call raised. */
  function VisionJson(image: Option<Http.Upload>, vision: Option<string>): Option<string> {
    if image.Some? then Some(vision.GetOr(VisionFailed)) else None
  }

  /** The text stored for the user's message. */
  function Stored(text: string): string {
    if text == "" then ImagePlaceholder else text
  }

  /** The history turns of roles `user` and `assistant`, in order. */
  function Turns(rows: seq<(int, Db.Message)>): (r: seq<Prompt>)
    ensures |r| <= |rows|
    decreases |rows|
  {
    if rows == [] then []
    else
      var m := rows[|rows| - 1].1;
      Turns(rows[..|rows| - 1]) + (if m.role == "user" || m.role == "assistant" then [Turn(m.role, m.content)] else [])
  }

  /** The message list sent to the chat model: the system prompt, the analysis when there
      is one, the location when both coordinates came, the turns, and the default question
      when the user sent an image without text. */
  function Context(json: Option<string>, lat: Option<string>, lon: Option<string>, turns: seq<Prompt>, text: string): seq<Prompt> {
    ContextHead(json, lat, lon) + turns + (if text == "" && Text.Truthy(json) then [DefaultQuestion] else [])
  }

  function ContextHead(json: Option<string>, lat: Option<string>, lon: Option<string>): (r: seq<Prompt>)
    ensures 1 <= |r| <= 3 && r[0] == SystemPrompt
  {
    [SystemPrompt]
    + (if Text.Truthy(json) then [VisionContext(json.value)] else [])
    + (if lat.Some? && lon.Some? then [Location(lat.value, lon.value)] else [])
  }

  datatype Sent = Sent(reply: string, imageUrl: Option<string>)

  /** The tables after the request, its answer, the path the image was written to, and the
      message list the chat model was asked with. */
  datatype SendResult = SendResult(after: Db.Tables, reply: Result<Sent, Http.Failure>, saved: Option<string>,
                                   asked: Option<seq<Prompt>>)

  /** The message list for the model once the user's message is stored in `t1`. */
  function Asked(t1: Db.Tables, chatId: int, json: Option<string>, lat: Option<string>, lon: Option<string>, text: string): seq<Prompt> {
    Context(json, lat, lon, Turns(History(t1, chatId)), text)
  }

  /** The end of the handler once the model answered (`answer`) or raised (None). */
  function Answered(t1: Db.Tables, base: string, chatId: int, path: Option<string>, ctx: seq<Prompt>,
                    answer: Option<string>, now: int): SendResult
    requires chatId in t1.chats
  {
    match answer
    case None => SendResult(t1, Err(ServerError), path, Some(ctx))
    case Some(a) => SendResult(Post(t1, chatId, "assistant", a, None, now), Ok(Sent(a, ImageUrl(base, path))), path, Some(ctx))
  }

  /** An accepted message: the user's message stored with the image path, the model asked
      over the tables that hold it, and its answer stored. The user's message is committed
      before the chat model is asked, so a failing model leaves it stored. */
  function Accepted(t: Db.Tables, base: string, chatId: int, path: Option<string>, json: Option<string>,
                    lat: Option<string>, lon: Option<string>, text: string, chat: seq<Prompt> -> Option<string>, now: int): SendResult
    requires chatId in t.chats
  {
    var t1 := Post(t, chatId, "user", Stored(text), path, now);
    var ctx := Asked(t1, chatId, json, lat, lon, text);
    Answered(t1, base, chatId, path, ctx, chat(ctx), now)
  }

  /** `send_message`: the ownership check, the size check, then the accepted message. */
  function SendOutcome(t: Db.Tables, s: Settings.Config, chatId: int, userId: int, text: string,
                       lat: Option<string>, lon: Option<string>, image: Option<Http.Upload>, vision: Option<string>,
                       chat: seq<Prompt> -> Option<string>, now: int): SendResult
  {
    if !Owns(t, chatId, userId) then SendResult(t, Err(ChatNotFound), None, None)
    else if image.Some? && image.value.size > MaxImageBytes then SendResult(t, Err(ImageTooLarge), None, None)
    else Accepted(t, s.publicBaseUrl, chatId, UploadTarget(s.uploadDir, chatId, userId, image, now),
                  VisionJson(image, vision), lat, lon, text, chat, now)
  }

  /** `default_message`: `send_message` on the default chat, which is created and committed first. */
  function DefaultMessageOutcome(t: Db.Tables, s: Settings.Config, userId: int, text: string,
                                 lat: Option<string>, lon: Option<string>, image: Option<Http.Upload>, vision: Option<string>,
                                 chat: seq<Prompt> -> Option<string>, now: int): SendResult
  {
    var e := EnsureDefault(t, userId, now);
    SendOutcome(e.after, s, e.chatId, userId, text, lat, lon, image, vision, chat, now)
  }

  /** `default_history`: the messages of the default chat. */
  function DefaultHistoryOutcome(t: Db.Tables, s: Settings.Config, userId: int, now: int): (Db.Tables, seq<MessageOut>) {
    var e := EnsureDefault(t, userId, now);
    (e.after, Listing(s.publicBaseUrl, ChatMessages(e.after, e.chatId)))
  }

  // ------------------------------------------------------------------ endpoints as methods

  /** `_ensure_default_chat` as statements, with the re-query after the insert. */
  method EnsureDefaultChat(db: Db.Database, userId: int, now: int) returns (chatId: int)
    requires db.Valid()
    modifies db
    ensures Ensured(db.Snapshot(), chatId) == EnsureDefault(old(db.Snapshot()), userId, now)
  {
    var owned := UserChats(db.Snapshot(), userId);
    if owned != [] {
      return owned[0].0;
    }
    ghost var t := db.Snapshot();
    db.chats := db.chats[db.nextChatId := Db.Chat(userId, DefaultTitle, now, now)];
    db.nextChatId := db.nextChatId + 1;
    assert db.Snapshot() == AddChat(t, userId, DefaultTitle, now);
    EnsureDefaultChatFound(t, userId, now);
    var again := UserChats(db.Snapshot(), userId);
    chatId := again[0].0;
  }

  method ListChats(db: Db.Database, userId: int, now: int) returns (chats: seq<ChatOut>)
    requires db.Valid()
    modifies db
    ensures Listed(db.Snapshot(), chats) == ListOutcome(old(db.Snapshot()), userId, now)
  {
    if UserChats(db.Snapshot(), userId) == [] {
      var _ := EnsureDefaultChat(db, userId, now);
    }
    chats := Newest(db.Snapshot(), userId);
  }

  method CreateChat(db: Db.Database, userId: int, title: Option<string>, now: int) returns (chatId: int)
    modifies db
    ensures Created(db.Snapshot(), chatId) == CreateOutcome(old(db.Snapshot()), userId, title, now)
  {
    chatId := db.nextChatId;
    db.chats := db.chats[db.nextChatId := Db.Chat(userId, ChatTitle(title), now, now)];
    db.nextChatId := db.nextChatId + 1;
  }

  /** The loop that turns the rows into the answer. */
  method RenderMessages(base: string, rows: seq<(int, Db.Message)>) returns (out: seq<MessageOut>)
    ensures out == Listing(base, rows)
  {
    out := [];
    for i := 0 to |rows|
      invariant out == Listing(base, rows[..i])
    {
      assert rows[..i + 1][..i] == rows[..i];
      out := out + [Shown(base, rows[i].0, rows[i].1)];
    }
    assert rows[..|rows|] == rows;
  }

  method GetMessages(db: Db.Database, s: Settings.Config, chatId: int, userId: int)
    returns (r: Result<seq<MessageOut>, Http.Failure>)
    ensures r == MessagesOutcome(db.Snapshot(), s, chatId, userId)
  {
    if !(chatId in db.chats && db.chats[chatId].userId == userId) {
      return Err(ChatNotFound);
    }
    var out := RenderMessages(s.publicBaseUrl, ChatMessages(db.Snapshot(), chatId));
    return Ok(out);
  }

  /** One message stored: the `INSERT` and the chat's `updated_at`. */
  method PostMessage(db: Db.Database, chatId: int, role: string, content: string, path: Option<string>, now: int)
    requires chatId in db.chats
    modifies db
    ensures db.Snapshot() == Post(old(db.Snapshot()), chatId, role, content, path, now)
  {
    db.messages := db.messages[db.nextMessageId := Db.Message(chatId, role, content, path, now)];
    db.nextMessageId := db.nextMessageId + 1;
    db.chats := db.chats[chatId := db.chats[chatId].(updatedAt := now)];
  }

  /** The list of messages for the model, built as the handler builds it. */
  method BuildContext(history: seq<(int, Db.Message)>, json: Option<string>,
                      lat: Option<string>, lon: Option<string>, text: string) returns (ctx: seq<Prompt>)
    ensures ctx == Context(json, lat, lon, Turns(history), text)
  {
    ctx := [SystemPrompt];
    if Text.Truthy(json) {
      ctx := ctx + [VisionContext(json.value)];
    }
    if lat.Some? && lon.Some? {
      ctx := ctx + [Location(lat.value, lon.value)];
    }
    ghost var head := ctx;
    assert head == ContextHead(json, lat, lon);
    for i := 0 to |history|
      invariant ctx == head + Turns(history[..i])
    {
      ghost var pre := Turns(history[..i]);
      var m := history[i].1;
      assert history[..i + 1][..i] == history[..i];
      assert Turns(history[..i + 1]) == pre + (if m.role == "user" || m.role == "assistant" then [Turn(m.role, m.content)] else []);
      if m.role == "user" || m.role == "assistant" {
        ctx := ctx + [Turn(m.role, m.content)];
        assert ctx == head + (pre + [Turn(m.role, m.content)]);
      } else {
        assert pre + [] == pre;
      }
    }
    assert history[..|history|] == history;
    ghost var turns := ctx;
    if text == "" && Text.Truthy(json) {
      ctx := ctx + [DefaultQuestion];
    } else {
      assert ctx == turns + [];
    }
  }

  method SendMessage(db: Db.Database, s: Settings.Config, chatId: int, userId: int, text: string,
                     lat: Option<string>, lon: Option<string>, image: Option<Http.Upload>, vision: Option<string>,
                     chat: seq<Prompt> -> Option<string>, now: int)
    returns (reply: Result<Sent, Http.Failure>, saved: Option<string>, asked: Option<seq<Prompt>>)
    modifies db
    ensures SendResult(db.Snapshot(), reply, saved, asked)
         == SendOutcome(old(db.Snapshot()), s, chatId, userId, text, lat, lon, image, vision, chat, now)
  {
    if !(chatId in db.chats && db.chats[chatId].userId == userId) {
      return Err(ChatNotFound), None, None;
    }
    var path: Option<string> := None;
    var json: Option<string> := None;
    if image.Some? {
      if image.value.size > MaxImageBytes {
        return Err(ImageTooLarge), None, None;
      }
      path := Some(UploadPath(s.uploadDir, UploadName(chatId, userId, image.value, now)));
      json := Some(vision.GetOr(VisionFailed));
    }
    PostMessage(db, chatId, "user", Stored(text), path, now);
    var ctx := BuildContext(History(db.Snapshot(), chatId), json, lat, lon, text);
    var answer := chat(ctx);
    if answer.None? {
      return Err(ServerError), path, Some(ctx);
    }
    PostMessage(db, chatId, "assistant", answer.value, None, now);
    return Ok(Sent(answer.value, ImageUrl(s.publicBaseUrl, path))), path, Some(ctx);
  }

  method DefaultMessage(db: Db.Database, s: Settings.Config, userId: int, text: string,
                        lat: Option<string>, lon: Option<string>, image: Option<Http.Upload>, vision: Option<string>,
                        chat: seq<Prompt> -> Option<string>, now: int)
    returns (reply: Result<Sent, Http.Failure>, saved: Option<string>, asked: Option<seq<Prompt>>)
    requires db.Valid()
    modifies db
    ensures SendResult(db.Snapshot(), reply, saved, asked)
         == DefaultMessageOutcome(old(db.Snapshot()), s, userId, text, lat, lon, image, vision, chat, now)
  {
    var chatId := EnsureDefaultChat(db, userId, now);
    reply, saved, asked := SendMessage(db, s, chatId, userId, text, lat, lon, image, vision, chat, now);
  }

  method DefaultHistory(db: Db.Database, s: Settings.Config, userId: int, now: int) returns (out: seq<MessageOut>)
    requires db.Valid()
    modifies db
    ensures (db.Snapshot(), out) == DefaultHistoryOutcome(old(db.Snapshot()), s, userId, now)
  {
    var chatId := EnsureDefaultChat(db, userId, now);
    out := RenderMessages(s.publicBaseUrl, ChatMessages(db.Snapshot(), chatId));
  }

  // ------------------------------------------------------------------ the default chat

  /** After the insert, the re-query finds the new chat as the user's only one. */
  lemma EnsureDefaultChatFound(t: Db.Tables, userId: int, now: int)
    requires t.nextChatId >= 1 && UserChats(t, userId) == []
    ensures UserChats(AddChat(t, userId, DefaultTitle, now), userId)
         == [(t.nextChatId, Db.Chat(userId, DefaultTitle, now, now))]
  {
    var n := t.nextChatId;
    var c := Db.Chat(userId, DefaultTitle, now, now);
    Db.SelectSnoc(t.chats[n := c], OwnedBy(userId), 1, n);
    Db.SelectOutside(t.chats, OwnedBy(userId), 1, n, n, c);
  }

  /** The default chat belongs to the user and has the lowest id of the user's chats; the
      tables change only when the user had no chat, by one new chat `Katara`; asking again
      gives the same chat and changes nothing. */
  lemma EnsureDefaultLowest(t: Db.Tables, userId: int, now: int, later: int)
    requires Db.Consistent(t)
    ensures var e := EnsureDefault(t, userId, now);
      && Owns(e.after, e.chatId, userId)
      && (forall id :: Owns(e.after, id, userId) ==> e.chatId <= id)
      && (UserChats(t, userId) != [] ==> e.after == t)
      && (UserChats(t, userId) == [] ==> e.after == AddChat(t, userId, DefaultTitle, now) && e.chatId == t.nextChatId)
      && EnsureDefault(e.after, userId, later) == e
  {
    var owned := UserChats(t, userId);
    if owned != [] {
      Db.SelectRows(t.chats, OwnedBy(userId), 1, t.nextChatId);
      Db.SelectFirst(t.chats, OwnedBy(userId), 1, t.nextChatId);
      assert owned[0].0 in t.chats;
    } else {
      EnsureDefaultChatFound(t, userId, now);
      Db.SelectEmpty(t.chats, OwnedBy(userId), 1, t.nextChatId);
    }
  }

  // ------------------------------------------------------------------ listing

  /** An entry of the keyed listing: one of the user's chats, with its title, keyed by its
      `updated_at` negated. */
  ghost predicate RecencyRow(t: Db.Tables, userId: int, e: (real, ChatOut)) {
    Owns(t, e.1.id, userId) && e.1.title == t.chats[e.1.id].title && e.0 == -(t.chats[e.1.id].updatedAt as real)
  }

  /** Every keyed entry is one of the user's chats. */
  lemma NewestRows(t: Db.Tables, userId: int)
    ensures forall e :: e in Recency(UserChats(t, userId)) ==> RecencyRow(t, userId, e)
  {
    var rows := UserChats(t, userId);
    var rec := Recency(rows);
    Db.SelectRows(t.chats, OwnedBy(userId), 1, t.nextChatId);
    forall e | e in rec ensures RecencyRow(t, userId, e) {
      var i :| 0 <= i < |rec| && rec[i] == e;
      assert rows[i].0 in t.chats && t.chats[rows[i].0] == rows[i].1;
    }
  }

  /** Every chat of the user has a keyed entry. */
  lemma NewestComplete(t: Db.Tables, userId: int, id: int)
    requires Db.Consistent(t) && Owns(t, id, userId)
    ensures (-(t.chats[id].updatedAt as real), ChatOut(id, t.chats[id].title)) in Recency(UserChats(t, userId))
  {
    var rows := UserChats(t, userId);
    Db.SelectComplete(t.chats, OwnedBy(userId), 1, t.nextChatId);
    assert (id, t.chats[id]) in rows;
    var i :| 0 <= i < |rows| && rows[i] == (id, t.chats[id]);
    assert Recency(rows)[i] == (-(t.chats[id].updatedAt as real), ChatOut(id, t.chats[id].title));
  }

  /** `Newest` lists exactly the user's chats, each once, with their titles, the most
      recently updated first. */
  lemma NewestProperties(t: Db.Tables, userId: int)
    requires Db.Consistent(t)
    ensures var r := Newest(t, userId);
      && |r| == |UserChats(t, userId)|
      && (forall k :: 0 <= k < |r| ==> Owns(t, r[k].id, userId) && r[k].title == t.chats[r[k].id].title)
      && (forall id :: Owns(t, id, userId) ==> exists k :: 0 <= k < |r| && r[k].id == id)
      && (forall j, k :: 0 <= j < k < |r| ==> t.chats[r[j].id].updatedAt >= t.chats[r[k].id].updatedAt)
  {
    var rec := Recency(UserChats(t, userId));
    var srt := Sorting.SortByKey(rec);
    var r := Newest(t, userId);
    Sorting.SortProperties(rec);
    NewestRows(t, userId);
    forall k | 0 <= k < |srt| ensures RecencyRow(t, userId, srt[k]) {
      Sorting.SortMember(rec, k);
    }
    forall id | Owns(t, id, userId) ensures exists k :: 0 <= k < |r| && r[k].id == id {
      NewestComplete(t, userId, id);
      var e := (-(t.chats[id].updatedAt as real), ChatOut(id, t.chats[id].title));
      assert e in multiset(srt);
      var k :| 0 <= k < |srt| && srt[k] == e;
      assert r[k].id == id;
    }
    forall j, k | 0 <= j < k < |r| ensures t.chats[r[j].id].updatedAt >= t.chats[r[k].id].updatedAt {
      assert srt[j].0 <= srt[k].0;
    }
  }

  /** `list_chats` never answers an empty list: it lists exactly the user's chats of the
      tables after it, with their titles, the most recently updated first. */
  lemma ListChatsContents(t: Db.Tables, userId: int, now: int)
    requires Db.Consistent(t)
    ensures var l := ListOutcome(t, userId, now);
      && l.chats != []
      && (UserChats(t, userId) != [] ==> l.after == t)
      && (forall k :: 0 <= k < |l.chats| ==> Owns(l.after, l.chats[k].id, userId) && l.chats[k].title == l.after.chats[l.chats[k].id].title)
      && (forall id :: Owns(l.after, id, userId) ==> exists k :: 0 <= k < |l.chats| && l.chats[k].id == id)
      && (forall j, k :: 0 <= j < k < |l.chats| ==>
            l.after.chats[l.chats[j].id].updatedAt >= l.after.chats[l.chats[k].id].updatedAt)
  {
    var l := ListOutcome(t, userId, now);
    EnsureDefaultLowest(t, userId, now, now);
    EnsureDefaultConsistent(t, userId, now);
    assert l.after == EnsureDefault(t, userId, now).after;
    NewestProperties(l.after, userId);
  }

  /** A chat that was just created is listed afterwards with the title sent, or `Katara` when
      none or an empty one was sent, and listing does not change the tables. */
  lemma CreateThenList(t: Db.Tables, userId: int, title: Option<string>, now: int, later: int)
    requires Db.Consistent(t)
    ensures var c := CreateOutcome(t, userId, title, now);
      var l := ListOutcome(c.after, userId, later);
      && l.after == c.after
      && exists k :: 0 <= k < |l.chats| && l.chats[k] == ChatOut(c.chatId, if Text.Truthy(title) then title.value else DefaultTitle)
  {
    var c := CreateOutcome(t, userId, title, now);
    CreateConsistent(t, userId, title, now);
    assert Owns(c.after, c.chatId, userId);
    NewestProperties(c.after, userId);
    ListChatsContents(c.after, userId, later);
  }

  // ------------------------------------------------------------------ messages

  /** Row `k` of the answer shows message `k` of the scan. */
  lemma {:induction false} ListingAt(base: string, rows: seq<(int, Db.Message)>, k: int)
    requires 0 <= k < |rows|
    ensures Listing(base, rows)[k] == Shown(base, rows[k].0, rows[k].1)
    decreases |rows|
  {
    if k < |rows| - 1 {
      ListingAt(base, rows[..|rows| - 1], k);
    }
  }

  /** A row of the answer shows message `o.id` of chat `chatId`: its role, content,
      image URL and time. */
  ghost predicate ShowsMessage(t: Db.Tables, base: string, chatId: int, o: MessageOut) {
    o.id in t.messages && t.messages[o.id].chatId == chatId && o == Shown(base, o.id, t.messages[o.id])
  }

  /** Every row of the answer shows one of the chat's messages, in increasing id order. */
  lemma MessagesShown(t: Db.Tables, base: string, chatId: int)
    ensures forall k :: 0 <= k < |Listing(base, ChatMessages(t, chatId))| ==>
      ShowsMessage(t, base, chatId, Listing(base, ChatMessages(t, chatId))[k])
    ensures forall j, k :: 0 <= j < k < |Listing(base, ChatMessages(t, chatId))| ==>
      Listing(base, ChatMessages(t, chatId))[j].id < Listing(base, ChatMessages(t, chatId))[k].id
  {
    var rows := ChatMessages(t, chatId);
    var out := Listing(base, rows);
    Db.SelectRows(t.messages, InChat(chatId), 1, t.nextMessageId);
    Db.SelectComplete(t.messages, InChat(chatId), 1, t.nextMessageId);
    forall k | 0 <= k < |out| ensures out[k] == Shown(base, rows[k].0, rows[k].1) {
      ListingAt(base, rows, k);
    }
  }

  /** Every message of the chat has a row in the answer. */
  lemma MessagesComplete(t: Db.Tables, base: string, chatId: int, id: int)
    requires Db.Consistent(t) && id in t.messages && t.messages[id].chatId == chatId
    ensures exists k :: 0 <= k < |Listing(base, ChatMessages(t, chatId))| && Listing(base, ChatMessages(t, chatId))[k].id == id
  {
    var rows := ChatMessages(t, chatId);
    Db.SelectComplete(t.messages, InChat(chatId), 1, t.nextMessageId);
    assert (id, t.messages[id]) in rows;
    var k :| 0 <= k < |rows| && rows[k] == (id, t.messages[id]);
    ListingAt(base, rows, k);
  }

  /** `get_messages` answers 404 exactly when the chat is not the user's; otherwise it
      shows every message of the chat once, in increasing id order, each with its role,
      content, image URL and time. */
  lemma GetMessagesContents(t: Db.Tables, s: Settings.Config, chatId: int, userId: int)
    requires Db.Consistent(t)
    ensures var r := MessagesOutcome(t, s, chatId, userId);
      && (r.Err? <==> !Owns(t, chatId, userId))
      && (r.Err? ==> r.error == ChatNotFound)
      && (r.Ok? ==> forall k :: 0 <= k < |r.value| ==> ShowsMessage(t, s.publicBaseUrl, chatId, r.value[k]))
      && (r.Ok? ==> forall id :: id in t.messages && t.messages[id].chatId == chatId ==>
            exists k :: 0 <= k < |r.value| && r.value[k].id == id)
      && (r.Ok? ==> forall j, k :: 0 <= j < k < |r.value| ==> r.value[j].id < r.value[k].id)
  {
    MessagesShown(t, s.publicBaseUrl, chatId);
    forall id | id in t.messages && t.messages[id].chatId == chatId
      ensures exists k :: 0 <= k < |Listing(s.publicBaseUrl, ChatMessages(t, chatId))| &&
                Listing(s.publicBaseUrl, ChatMessages(t, chatId))[k].id == id
    {
      MessagesComplete(t, s.publicBaseUrl, chatId, id);
    }
  }

  // ------------------------------------------------------------------ send_message

  /** A message to a chat that is not the user's, or with an image over 10 MiB, is refused
      and changes nothing; every other message is accepted, with the image written under
      its unique name and the analysis of the image, and changes the tables. */
  lemma SendRejections(t: Db.Tables, s: Settings.Config, chatId: int, userId: int, text: string,
                       lat: Option<string>, lon: Option<string>, image: Option<Http.Upload>, vision: Option<string>,
                       chat: seq<Prompt> -> Option<string>, now: int)
    ensures var r := SendOutcome(t, s, chatId, userId, text, lat, lon, image, vision, chat, now);
      && (!Owns(t, chatId, userId) ==> r == SendResult(t, Err(ChatNotFound), None, None))
      && (Owns(t, chatId, userId) && image.Some? && image.value.size > MaxImageBytes ==>
            r == SendResult(t, Err(ImageTooLarge), None, None))
      && (Owns(t, chatId, userId) && (image.None? || image.value.size <= MaxImageBytes) ==>
            r == Accepted(t, s.publicBaseUrl, chatId, UploadTarget(s.uploadDir, chatId, userId, image, now),
                          VisionJson(image, vision), lat, lon, text, chat, now))
      && (r.after == t <==> r.reply == Err(ChatNotFound) || r.reply == Err(ImageTooLarge))
  {
    if Owns(t, chatId, userId) && (image.None? || image.value.size <= MaxImageBytes) {
      var path := UploadTarget(s.uploadDir, chatId, userId, image, now);
      var json := VisionJson(image, vision);
      SendStores(t, s.publicBaseUrl, chatId, path, json, lat, lon, text, chat, now);
    }
  }

  /** The end of the handler stores the answer as the assistant's message, or nothing when
      the model raised. */
  lemma AnsweredStores(t1: Db.Tables, base: string, chatId: int, path: Option<string>, ctx: seq<Prompt>,
                       answer: Option<string>, now: int)
    requires chatId in t1.chats
    ensures var r := Answered(t1, base, chatId, path, ctx, answer, now);
      && r.asked == Some(ctx) && r.saved == path
      && (r.reply.Ok? <==> answer.Some?)
      && (r.reply.Err? ==> r.reply.error == ServerError && r.after == t1)
      && (r.reply.Ok? ==> r.reply.value == Sent(answer.value, ImageUrl(base, path)))
      && (r.reply.Ok? ==> r.after == Post(t1, chatId, "assistant", answer.value, None, now))
  {
  }

  /** An accepted message stores the user's message (its text, or `(imagen)` when empty,
      with the path of the image) and then the model's answer, under the next two ids, and
      marks the chat updated; a failing model leaves only the user's message. Nothing else changes. */
  lemma SendStores(t: Db.Tables, base: string, chatId: int, path: Option<string>, json: Option<string>,
                   lat: Option<string>, lon: Option<string>, text: string, chat: seq<Prompt> -> Option<string>, now: int)
    requires chatId in t.chats
    ensures var r := Accepted(t, base, chatId, path, json, lat, lon, text, chat, now);
      var n := t.nextMessageId;
      var mine := Db.Message(chatId, "user", if text == "" then "(imagen)" else text, path, now);
      && r.asked.Some? && r.saved == path
      && (r.reply.Ok? || r.reply == Err(ServerError))
      && (r.reply.Ok? <==> chat(r.asked.value).Some?)
      && (r.reply.Ok? ==> r.reply.value == Sent(chat(r.asked.value).value, ImageUrl(base, path)))
      && (r.reply.Ok? ==> r.after.messages == t.messages[n := mine][n + 1 := Db.Message(chatId, "assistant", r.reply.value.reply, None, now)])
      && (r.reply.Ok? ==> r.after.nextMessageId == n + 2)
      && (r.reply.Err? ==> r.after.messages == t.messages[n := mine] && r.after.nextMessageId == n + 1)
      && r.after.chats == t.chats[chatId := t.chats[chatId].(updatedAt := now)]
      && r.after.users == t.users && r.after.otps == t.otps && r.after.refreshTokens == t.refreshTokens
      && r.after.points == t.points && r.after.nextChatId == t.nextChatId
  {
    var t1 := Post(t, chatId, "user", Stored(text), path, now);
    var ctx := Asked(t1, chatId, json, lat, lon, text);
    assert Accepted(t, base, chatId, path, json, lat, lon, text, chat, now) == Answered(t1, base, chatId, path, ctx, chat(ctx), now);
    AnswerStored(t, base, chatId, path, text, ctx, chat(ctx), now);
  }

  /** `SendStores` for whatever the model answered over the message list `ctx`. */
  lemma AnswerStored(t: Db.Tables, base: string, chatId: int, path: Option<string>, text: string,
                     ctx: seq<Prompt>, answer: Option<string>, now: int)
    requires chatId in t.chats
    ensures var r := Answered(Post(t, chatId, "user", Stored(text), path, now), base, chatId, path, ctx, answer, now);
      var n := t.nextMessageId;
      var mine := Db.Message(chatId, "user", if text == "" then "(imagen)" else text, path, now);
      && r.asked == Some(ctx) && r.saved == path
      && (r.reply.Ok? || r.reply == Err(ServerError))
      && (r.reply.Ok? <==> answer.Some?)
      && (r.reply.Ok? ==> r.reply.value == Sent(answer.value, ImageUrl(base, path)))
      && (r.reply.Ok? ==> r.after.messages == t.messages[n := mine][n + 1 := Db.Message(chatId, "assistant", answer.value, None, now)])
      && (r.reply.Ok? ==> r.after.nextMessageId == n + 2)
      && (r.reply.Err? ==> r.after.messages == t.messages[n := mine] && r.after.nextMessageId == n + 1)
      && r.after.chats == t.chats[chatId := t.chats[chatId].(updatedAt := now)]
      && r.after.users == t.users && r.after.otps == t.otps && r.after.refreshTokens == t.refreshTokens
      && r.after.points == t.points && r.after.nextChatId == t.nextChatId
  {
    var n := t.nextMessageId;
    var t1 := Post(t, chatId, "user", Stored(text), path, now);
    AnsweredStores(t1, base, chatId, path, ctx, answer, now);
    var touched := t.chats[chatId := t.chats[chatId].(updatedAt := now)];
    assert t1.chats == touched && t1.nextMessageId == n + 1;
    if answer.Some? {
      var t2 := Post(t1, chatId, "assistant", answer.value, None, now);
      assert t2.chats == touched;
    }
  }

  /** After a message is stored, the chat's scan is the old scan followed by the new
      message, and the history ends with it. */
  lemma HistoryEndsWithPost(t: Db.Tables, chatId: int, role: string, content: string, path: Option<string>, now: int)
    requires t.nextMessageId >= 1 && chatId in t.chats
    ensures var h := History(Post(t, chatId, role, content, path, now), chatId);
      && |h| >= 1 && h[|h| - 1] == (t.nextMessageId, Db.Message(chatId, role, content, path, now))
      && h == LastN(ChatMessages(t, chatId) + [(t.nextMessageId, Db.Message(chatId, role, content, path, now))], HistoryLimit)
  {
    var n := t.nextMessageId;
    var m := Db.Message(chatId, role, content, path, now);
    var t1 := Post(t, chatId, role, content, path, now);
    Db.SelectSnoc(t.messages[n := m], InChat(chatId), 1, n);
    Db.SelectOutside(t.messages, InChat(chatId), 1, n, n, m);
    assert ChatMessages(t1, chatId) == ChatMessages(t, chatId) + [(n, m)];
  }

  /** The turns end with the message just stored when it is the user's. */
  lemma TurnsEndWithUser(rows: seq<(int, Db.Message)>, content: string)
    requires |rows| >= 1 && rows[|rows| - 1].1.role == "user" && rows[|rows| - 1].1.content == content
    ensures |Turns(rows)| >= 1 && Turns(rows)[|Turns(rows)| - 1] == Turn("user", content)
  {
  }

  /** Every turn has the role `user` or `assistant`. */
  lemma {:induction false} TurnsRoles(rows: seq<(int, Db.Message)>)
    ensures forall k :: 0 <= k < |Turns(rows)| ==>
      Turns(rows)[k].Turn? && Role(Turns(rows)[k]) in {"user", "assistant"}
    decreases |rows|
  {
    if rows != [] {
      TurnsRoles(rows[..|rows| - 1]);
    }
  }

  /** The shape of a message list: the system prompt first; the analysis exactly when it is
      not empty; the location exactly when both coordinates came; then `turns`, which must
      end with the user's message; and the default question when the analysis came without text. */
  lemma ContextShape(json: Option<string>, lat: Option<string>, lon: Option<string>, turns: seq<Prompt>, text: string, content: string)
    requires |turns| >= 1 && turns[|turns| - 1] == Turn("user", content)
    requires forall k :: 0 <= k < |turns| ==> turns[k].Turn?
    ensures var ask := Context(json, lat, lon, turns, text);
      && ask[0] == SystemPrompt
      && 2 <= |ask| <= 4 + |turns|
      && (Text.Truthy(json) ==> ask[1] == VisionContext(json.value))
      && (!Text.Truthy(json) ==> forall k :: 0 <= k < |ask| ==> !ask[k].VisionContext?)
      && (lat.Some? && lon.Some? ==> Location(lat.value, lon.value) in ask)
      && (lat.None? || lon.None? ==> forall k :: 0 <= k < |ask| ==> !ask[k].Location?)
      && (text != "" || !Text.Truthy(json) ==> ask[|ask| - 1] == Turn("user", content))
      && (text == "" && Text.Truthy(json) ==> ask[|ask| - 1] == DefaultQuestion && ask[|ask| - 2] == Turn("user", content))
  {
    var head := ContextHead(json, lat, lon);
    var ctx := Context(json, lat, lon, turns, text);
    forall k | |head| <= k < |head| + |turns| ensures ctx[k] == turns[k - |head|] {
    }
    if lat.Some? && lon.Some? {
      assert ctx[|head| - 1] == Location(lat.value, lon.value);
    }
  }

  /** The shape of the message list asked for a message `text` with analysis `json` and
      coordinates `lat`, `lon`: the system prompt first; the analysis exactly when it is not
      empty; the location exactly when both coordinates came; at most the twenty newest
      messages; and last the user's message, followed by the default question when the
      analysis came without text. */
  ghost predicate AskShape(ask: seq<Prompt>, json: Option<string>, lat: Option<string>, lon: Option<string>, text: string) {
    && 2 <= |ask| <= 4 + HistoryLimit
    && ask[0] == SystemPrompt
    && (Text.Truthy(json) ==> ask[1] == VisionContext(json.value))
    && (!Text.Truthy(json) ==> forall k :: 0 <= k < |ask| ==> !ask[k].VisionContext?)
    && (lat.Some? && lon.Some? ==> Location(lat.value, lon.value) in ask)
    && (lat.None? || lon.None? ==> forall k :: 0 <= k < |ask| ==> !ask[k].Location?)
    && (text != "" || !Text.Truthy(json) ==> ask[|ask| - 1] == Turn("user", Stored(text)))
    && (text == "" && Text.Truthy(json) ==> ask[|ask| - 1] == DefaultQuestion && ask[|ask| - 2] == Turn("user", "(imagen)"))
  }

  /** The message list built once the user's message is stored has that shape. */
  lemma AskedShape(t: Db.Tables, chatId: int, json: Option<string>, lat: Option<string>, lon: Option<string>,
                   text: string, path: Option<string>, now: int)
    requires t.nextMessageId >= 1 && chatId in t.chats
    ensures AskShape(Asked(Post(t, chatId, "user", Stored(text), path, now), chatId, json, lat, lon, text), json, lat, lon, text)
  {
    var t1 := Post(t, chatId, "user", Stored(text), path, now);
    var h := History(t1, chatId);
    HistoryEndsWithPost(t, chatId, "user", Stored(text), path, now);
    TurnsEndWithUser(h, Stored(text));
    TurnsRoles(h);
    ContextShape(json, lat, lon, Turns(h), text, Stored(text));
  }

  /** An accepted message asks the model with a list of that shape. */
  lemma SendContext(t: Db.Tables, base: string, chatId: int, path: Option<string>, json: Option<string>,
                    lat: Option<string>, lon: Option<string>, text: string, chat: seq<Prompt> -> Option<string>, now: int)
    requires t.nextMessageId >= 1 && chatId in t.chats
    ensures var r := Accepted(t, base, chatId, path, json, lat, lon, text, chat, now);
      r.asked.Some? && AskShape(r.asked.value, json, lat, lon, text)
  {
    var t1 := Post(t, chatId, "user", Stored(text), path, now);
    var ctx := Asked(t1, chatId, json, lat, lon, text);
    AnsweredStores(t1, base, chatId, path, ctx, chat(ctx), now);
    AskedShape(t, chatId, json, lat, lon, text, path, now);
  }

  /** The stored path of an uploaded image ends in the name of the written file. */
  lemma UploadPathNames(uploadDir: string, chatId: int, userId: int, image: Http.Upload, now: int)
    ensures Text.Basename(UploadPath(uploadDir, UploadName(chatId, userId, image, now))) == UploadName(chatId, userId, image, now)
    ensures UploadPath(uploadDir, UploadName(chatId, userId, image, now)) != ""
  {
    var prefix := "chat_" + Decimal.IntToString(chatId) + "_" + Decimal.IntToString(userId);
    Decimal.IntToStringNoSlash(chatId);
    Decimal.IntToStringNoSlash(userId);
    var original := if Text.Truthy(image.filename) then image.filename.value else DefaultImageName;
    Files.UploadBasename(Text.PathJoin(uploadDir, "chat"), prefix, Some(original), now);
  }

  /** A successful message with an image answers with the public URL of the file that was
      written, and `get_messages` then shows the stored message with that same URL. */
  lemma SendImageUrl(t: Db.Tables, s: Settings.Config, chatId: int, userId: int, text: string,
                     lat: Option<string>, lon: Option<string>, image: Option<Http.Upload>, vision: Option<string>,
                     chat: seq<Prompt> -> Option<string>, now: int)
    requires Db.Consistent(t)
    requires Owns(t, chatId, userId) && image.Some? && image.value.size <= MaxImageBytes
    ensures var r := SendOutcome(t, s, chatId, userId, text, lat, lon, image, vision, chat, now);
      var name := UploadName(chatId, userId, image.value, now);
      r.reply.Ok? ==>
        && r.saved == Some(UploadPath(s.uploadDir, name))
        && r.reply.value.imageUrl == Some(s.publicBaseUrl + "/uploads/chat/" + name)
        && exists k :: 0 <= k < |MessagesOutcome(r.after, s, chatId, userId).value| &&
             MessagesOutcome(r.after, s, chatId, userId).value[k] ==
               MessageOut(t.nextMessageId, "user", Stored(text), r.reply.value.imageUrl, now)
  {
    var r := SendOutcome(t, s, chatId, userId, text, lat, lon, image, vision, chat, now);
    var name := UploadName(chatId, userId, image.value, now);
    var path := UploadTarget(s.uploadDir, chatId, userId, image, now);
    assert path == Some(UploadPath(s.uploadDir, name));
    UploadPathNames(s.uploadDir, chatId, userId, image.value, now);
    SendRejections(t, s, chatId, userId, text, lat, lon, image, vision, chat, now);
    SendStores(t, s.publicBaseUrl, chatId, path, VisionJson(image, vision), lat, lon, text, chat, now);
    if r.reply.Ok? {
      var url := ImageUrl(s.publicBaseUrl, path);
      assert url == Some(s.publicBaseUrl + "/uploads/chat/" + name);
      SendConsistent(t, s, chatId, userId, text, lat, lon, image, vision, chat, now);
      var n := t.nextMessageId;
      var mine := Db.Message(chatId, "user", Stored(text), path, now);
      assert n in r.after.messages && r.after.messages[n] == mine;
      assert Owns(r.after, chatId, userId);
      MessageListed(r.after, s, chatId, userId, n);
    }
  }

  /** A stored message of a chat the user owns is one of the rows `get_messages` answers. */
  lemma MessageListed(t: Db.Tables, s: Settings.Config, chatId: int, userId: int, n: int)
    requires Db.Consistent(t) && Owns(t, chatId, userId)
    requires n in t.messages && t.messages[n].chatId == chatId
    ensures MessagesOutcome(t, s, chatId, userId).Ok?
    ensures var listed := MessagesOutcome(t, s, chatId, userId).value;
      exists k :: 0 <= k < |listed| && listed[k] == Shown(s.publicBaseUrl, n, t.messages[n])
  {
    GetMessagesContents(t, s, chatId, userId);
    var listed := MessagesOutcome(t, s, chatId, userId).value;
    var k :| 0 <= k < |listed| && listed[k].id == n;
    assert ShowsMessage(t, s.publicBaseUrl, chatId, listed[k]);
  }

  /** The default endpoints never answer 404: the default chat belongs to the user. */
  lemma DefaultMessageOwned(t: Db.Tables, s: Settings.Config, userId: int, text: string,
                            lat: Option<string>, lon: Option<string>, image: Option<Http.Upload>, vision: Option<string>,
                            chat: seq<Prompt> -> Option<string>, now: int)
    requires Db.Consistent(t)
    ensures DefaultMessageOutcome(t, s, userId, text, lat, lon, image, vision, chat, now).reply != Err(ChatNotFound)
    ensures var e := EnsureDefault(t, userId, now);
      DefaultHistoryOutcome(t, s, userId, now) == (e.after, MessagesOutcome(e.after, s, e.chatId, userId).value)
  {
    EnsureDefaultLowest(t, userId, now, now);
  }

  // ------------------------------------------------------------------ invariants

  lemma AddChatConsistent(t: Db.Tables, userId: int, title: string, now: int)
    requires Db.Consistent(t)
    ensures Db.Consistent(AddChat(t, userId, title, now))
  {
  }

  lemma PostConsistent(t: Db.Tables, chatId: int, role: string, content: string, path: Option<string>, now: int)
    requires Db.Consistent(t) && chatId in t.chats
    ensures Db.Consistent(Post(t, chatId, role, content, path, now))
  {
    var t1 := Post(t, chatId, role, content, path, now);
    assert t1.chats.Keys == t.chats.Keys;
  }

  lemma EnsureDefaultConsistent(t: Db.Tables, userId: int, now: int)
    requires Db.Consistent(t)
    ensures Db.Consistent(EnsureDefault(t, userId, now).after)
  {
    if UserChats(t, userId) == [] {
      AddChatConsistent(t, userId, DefaultTitle, now);
    }
  }

  lemma ListConsistent(t: Db.Tables, userId: int, now: int)
    requires Db.Consistent(t)
    ensures Db.Consistent(ListOutcome(t, userId, now).after)
  {
    EnsureDefaultConsistent(t, userId, now);
  }

  lemma CreateConsistent(t: Db.Tables, userId: int, title: Option<string>, now: int)
    requires Db.Consistent(t)
    ensures Db.Consistent(CreateOutcome(t, userId, title, now).after)
  {
    AddChatConsistent(t, userId, ChatTitle(title), now);
  }

  lemma SendConsistent(t: Db.Tables, s: Settings.Config, chatId: int, userId: int, text: string,
                       lat: Option<string>, lon: Option<string>, image: Option<Http.Upload>, vision: Option<string>,
                       chat: seq<Prompt> -> Option<string>, now: int)
    requires Db.Consistent(t)
    ensures Db.Consistent(SendOutcome(t, s, chatId, userId, text, lat, lon, image, vision, chat, now).after)
  {
    if Owns(t, chatId, userId) && (image.None? || image.value.size <= MaxImageBytes) {
      var path := UploadTarget(s.uploadDir, chatId, userId, image, now);
      var t1 := Post(t, chatId, "user", Stored(text), path, now);
      var ctx := Asked(t1, chatId, VisionJson(image, vision), lat, lon, text);
      PostConsistent(t, chatId, "user", Stored(text), path, now);
      AnsweredStores(t1, s.publicBaseUrl, chatId, path, ctx, chat(ctx), now);
      if chat(ctx).Some? {
        PostConsistent(t1, chatId, "assistant", chat(ctx).value, None, now);
      }
    }
  }

  lemma DefaultMessageConsistent(t: Db.Tables, s: Settings.Config, userId: int, text: string,
                                 lat: Option<string>, lon: Option<string>, image: Option<Http.Upload>, vision: Option<string>,
                                 chat: seq<Prompt> -> Option<string>, now: int)
    requires Db.Consistent(t)
    ensures Db.Consistent(DefaultMessageOutcome(t, s, userId, text, lat, lon, image, vision, chat, now).after)
  {
    var e := EnsureDefault(t, userId, now);
    EnsureDefaultConsistent(t, userId, now);
    SendConsistent(e.after, s, e.chatId, userId, text, lat, lon, image, vision, chat, now);
  }
}
