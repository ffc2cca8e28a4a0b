/**
 * formatters.py: the translation of one slskd notification (a decoded JSON
 * object) into at most one Discord webhook payload.
 *
 * The environment variable SLSKD_URL is the parameter `slskdUrl`, and the
 * JSON serialiser `json.dumps(data, indent=2)` is the parameter `dump`.
 */
module Formatters {
  import opened Wrappers
  import opened Json
  import opened Text
  import Utils
  import PosixPath

  /** The `url` key of an embed author: left out, `null`, or a link. */
  datatype AuthorUrl = UrlAbsent | UrlNull | Url(link: string)

  datatype Author = Author(name: string, url: AuthorUrl)

  /** One Discord embed; `title` and `author` are keys some handlers leave out. */
  datatype Embed = Embed(
    color: int,
    title: Option<string>,
    author: Option<Author>,
    description: string,
    footer: string,
    timestamp: string)

  /** A webhook payload; `avatarUrl` is sent as JSON `null` when None. */
  datatype Payload = Payload(
    username: string,
    avatarUrl: Option<string>,
    content: string,
    embeds: seq<Embed>)

  const BotName := "Slskd"

  const RoomColor := 5793266
  const PrivateColor := 3447003
  const UploadColor := 3066993
  const UnknownColor := 9807270

  const RoomContent := "\U{1F4AC} You've received a room message"
  const PrivateContent := "\U{1F4E9} You've received a private message"
  const UploadContent := "\U{2B06}\U{FE0F} Upload completed successfully!"
  const UnknownContentLead := "\U{1F4E2} Slskd Notification: "

  const RoomType := "RoomMessageReceived"
  const PrivateType := "PrivateMessageReceived"
  const UploadType := "UploadFileComplete"

  /** The fixed part every payload shares: the bot's name, no avatar, one embed. */
  predicate WellShaped(p: Payload)
  {
    p.username == BotName && p.avatarUrl == None && |p.embeds| == 1
  }

  /** `_create_base_webhook_payload()` completed by `payload.update(content, embeds)`. */
  function WebhookPayload(content: string, embed: Embed): (p: Payload)
    ensures WellShaped(p)
    ensures p.content == content && p.embeds[0] == embed
  {
    Payload(BotName, None, content, [embed])
  }

  /** `f"{slskd_url}/chat" if slskd_url else None`: an unset or empty URL gives null. */
  function ChatLink(slskdUrl: Option<string>): (u: AuthorUrl)
    ensures u.Url? <==> slskdUrl.Some? && slskdUrl.value != ""
    ensures u.Url? ==> u.link == slskdUrl.value + "/chat"
    ensures !u.Url? ==> u == UrlNull
  {
    match slskdUrl
    case Some(base) => if base != "" then Url(base + "/chat") else UrlNull
    case None => UrlNull
  }

  /** `_create_message_embed`: the embed of a chat message. */
  function MessageEmbed(
    username: string, message: string, timestamp: string, color: int, footer: string,
    slskdUrl: Option<string>): (e: Embed)
    ensures e.title == None && e.color == color && e.footer == footer
    ensures e.author == Some(Author(username, ChatLink(slskdUrl)))
    ensures e.description == message && e.timestamp == timestamp
  {
    Embed(color, None, Some(Author(username, ChatLink(slskdUrl))), message, footer, timestamp)
  }

  /** The nested `message` object of a chat notification (`{}` when absent). */
  function ChatMessage(data: map<string, Value>): (m: map<string, Value>)
    ensures "message" in data && data["message"].Object? ==> m == data["message"].fields
    ensures "message" !in data || !data["message"].Object? ==> m == map[]
  {
    GetObject(data, "message")
  }

  /** `msg_data.get("wasReplayed", False)` taken as a condition. */
  function Replayed(data: map<string, Value>): (b: bool)
    ensures b <==> "wasReplayed" in ChatMessage(data) && Truthy(ChatMessage(data)["wasReplayed"])
  {
    Truthy(Get(ChatMessage(data), "wasReplayed", Bool(false)))
  }

  /** `_format_room_message`. */
  function RoomMessage(data: map<string, Value>, slskdUrl: Option<string>): (r: Option<Payload>)
    ensures r.None? <==> Replayed(data)
  {
    var msg := ChatMessage(data);
    if Replayed(data) then None
    else
      var username := GetString(msg, "username", "Unknown User");
      var roomName := GetString(msg, "roomName", "Unknown Room");
      var timestamp := GetString(msg, "timestamp", "");
      var message := GetString(msg, "message", "");
      Some(WebhookPayload(
        RoomContent,
        MessageEmbed(username, message, timestamp, RoomColor, "in " + roomName, slskdUrl)))
  }

  /** `_format_private_message`. */
  function PrivateMessage(data: map<string, Value>, slskdUrl: Option<string>): (r: Option<Payload>)
    ensures r.None? <==> Replayed(data)
  {
    var msg := ChatMessage(data);
    if Replayed(data) then None
    else
      var username := GetString(msg, "username", "Unknown User");
      var timestamp := GetString(msg, "timestamp", "");
      var message := GetString(msg, "message", "");
      Some(WebhookPayload(
        PrivateContent,
        MessageEmbed(username, message, timestamp, PrivateColor, "Private Message", slskdUrl)))
  }

  /** The upload embed's description: bold file name, then size, speed, duration and status lines. */
  function UploadDescription(
    filename: string, size: string, speed: string, elapsed: string, state: string): (d: string)
    ensures StartsWith(d, "**" + filename + "**\n")
    ensures EndsWith(d, "\n" + "\U{2705} Status: " + state)
  {
    "**" + filename + "**\n" +
    "\U{1F4C1} Size: " + size + "\n" +
    "\U{26A1} Speed: " + speed + "\n" +
    "\U{23F1}\U{FE0F} Duration: " + elapsed + "\n" +
    "\U{2705} Status: " + state
  }

  /** `_format_upload_complete`: never suppressed. */
  function UploadComplete(data: map<string, Value>): (p: Payload)
    ensures WellShaped(p)
  {
    var transfer := GetObject(data, "transfer");
    var username := GetString(transfer, "username", "Unknown User");
    var localFilename := GetString(data, "localFilename", "Unknown File");
    var timestamp := GetString(data, "timestamp", "");
    var filename := PosixPath.Basename(localFilename);
    var size := GetInt(transfer, "size", 0);
    var speed := GetInt(transfer, "averageSpeed", 0);
    var elapsed := GetString(transfer, "elapsedTime", "Unknown");
    var state := GetString(transfer, "state", "Unknown");
    WebhookPayload(
      UploadContent,
      Embed(UploadColor, None, Some(Author(username, UrlAbsent)),
            UploadDescription(
              filename, Utils.FormatBytes(size), Utils.FormatSpeed(speed), elapsed, state),
            "Upload to: " + username, timestamp))
  }

  /** `_format_unknown_message`: the whole notification, serialised, in a json code fence. */
  function UnknownMessage(
    data: map<string, Value>, messageType: string, dump: Value -> string): (p: Payload)
    ensures WellShaped(p)
    ensures p.content == UnknownContentLead + messageType
    ensures p.embeds[0].title == Some(messageType)
  {
    WebhookPayload(
      UnknownContentLead + messageType,
      Embed(UnknownColor, Some(messageType), None,
            "```json\n" + dump(Object(data)) + "\n```",
            "Raw notification data", GetString(data, "timestamp", "")))
  }

  /** The handlers the dispatch table names. */
  datatype Handler = RoomHandler | PrivateHandler | UploadHandler

  /** `handlers.get(message_type)`. */
  function HandlerFor(messageType: string): (h: Option<Handler>)
    ensures h == Some(RoomHandler) <==> messageType == RoomType
    ensures h == Some(PrivateHandler) <==> messageType == PrivateType
    ensures h == Some(UploadHandler) <==> messageType == UploadType
  {
    if messageType == RoomType then Some(RoomHandler)
    else if messageType == PrivateType then Some(PrivateHandler)
    else if messageType == UploadType then Some(UploadHandler)
    else None
  }

  /** `data.get("type", "Unknown")`. */
  function MessageType(data: map<string, Value>): (t: string)
    ensures "type" !in data ==> t == "Unknown"
    ensures "type" in data && data["type"].Str? ==> t == data["type"].s
  {
    GetString(data, "type", "Unknown")
  }

  /** The notifications that carry a chat message. */
  predicate IsChat(messageType: string)
  {
    messageType == RoomType || messageType == PrivateType
  }

  /** Where the embed's timestamp comes from: the chat message's, else the notification's. */
  function EventTimestamp(data: map<string, Value>): (t: string)
    ensures var source := if IsChat(MessageType(data)) then ChatMessage(data) else data;
      ("timestamp" in source && source["timestamp"].Str? ==> t == source["timestamp"].s) &&
      ("timestamp" !in source ==> t == "")
  {
    if IsChat(MessageType(data)) then GetString(ChatMessage(data), "timestamp", "")
    else GetString(data, "timestamp", "")
  }

  /**
   * `format_slskd_to_discord`. Nothing comes out exactly for a replayed chat
   * message; anything that comes out has the fixed shape and carries the
   * notification's timestamp unchanged.
   */
  function Translate(
    data: map<string, Value>, slskdUrl: Option<string>, dump: Value -> string): (r: Option<Payload>)
    ensures r.None? <==> IsChat(MessageType(data)) && Replayed(data)
    ensures r.Some? ==> WellShaped(r.value)
    ensures r.Some? ==> r.value.embeds[0].timestamp == EventTimestamp(data)
  {
    var messageType := MessageType(data);
    match HandlerFor(messageType)
    case Some(RoomHandler) => RoomMessage(data, slskdUrl)
    case Some(PrivateHandler) => PrivateMessage(data, slskdUrl)
    case Some(UploadHandler) => Some(UploadComplete(data))
    case None => Some(UnknownMessage(data, messageType, dump))
  }

  /** A replayed room or private message is dropped. */
  lemma ReplayedChatIsDropped(data: map<string, Value>, slskdUrl: Option<string>, dump: Value -> string)
    requires MessageType(data) == RoomType || MessageType(data) == PrivateType
    requires Replayed(data)
    ensures Translate(data, slskdUrl, dump) == None
  {
  }

  /**
   * Any type outside the dispatch table is rendered raw: a payload whose one
   * embed is titled with the type and holds the fenced serialisation of the
   * whole notification.
   */
  lemma UnhandledTypeIsDumped(data: map<string, Value>, slskdUrl: Option<string>, dump: Value -> string)
    requires MessageType(data) != RoomType && MessageType(data) != PrivateType
    requires MessageType(data) != UploadType
    ensures var t := MessageType(data);
      Translate(data, slskdUrl, dump) == Some(Payload(BotName, None, UnknownContentLead + t, [
        Embed(UnknownColor, Some(t), None, "```json\n" + dump(Object(data)) + "\n```",
              "Raw notification data", GetString(data, "timestamp", ""))]))
  {
  }

  /** A notification without a `type` is rendered raw under the type "Unknown". */
  lemma MissingTypeIsUnknown(data: map<string, Value>, slskdUrl: Option<string>, dump: Value -> string)
    requires "type" !in data
    ensures Translate(data, slskdUrl, dump) == Some(UnknownMessage(data, "Unknown", dump))
    ensures Translate(data, slskdUrl, dump).value.embeds[0].title == Some("Unknown")
    ensures Translate(data, slskdUrl, dump).value.embeds[0].footer == "Raw notification data"
  {
  }

  /**
   * A room message that is not a replay: the description is the message text,
   * the footer names the room, the author is the sender, each with its default.
   */
  lemma RoomMessageFields(data: map<string, Value>, slskdUrl: Option<string>, dump: Value -> string)
    requires MessageType(data) == RoomType && !Replayed(data)
    ensures var msg := ChatMessage(data);
      var r := Translate(data, slskdUrl, dump);
      r.Some? && r.value.content == RoomContent &&
      r.value.embeds[0] == Embed(RoomColor, None,
        Some(Author(GetString(msg, "username", "Unknown User"), ChatLink(slskdUrl))),
        GetString(msg, "message", ""),
        "in " + GetString(msg, "roomName", "Unknown Room"),
        GetString(msg, "timestamp", ""))
    ensures "roomName" !in ChatMessage(data) ==>
      Translate(data, slskdUrl, dump).value.embeds[0].footer == "in Unknown Room"
    ensures "username" !in ChatMessage(data) ==>
      Translate(data, slskdUrl, dump).value.embeds[0].author.value.name == "Unknown User"
  {
  }

  /** A private message that is not a replay, likewise, with the footer "Private Message". */
  lemma PrivateMessageFields(data: map<string, Value>, slskdUrl: Option<string>, dump: Value -> string)
    requires MessageType(data) == PrivateType && !Replayed(data)
    ensures var msg := ChatMessage(data);
      var r := Translate(data, slskdUrl, dump);
      r.Some? && r.value.content == PrivateContent &&
      r.value.embeds[0] == Embed(PrivateColor, None,
        Some(Author(GetString(msg, "username", "Unknown User"), ChatLink(slskdUrl))),
        GetString(msg, "message", ""),
        "Private Message",
        GetString(msg, "timestamp", ""))
    ensures "username" !in ChatMessage(data) ==>
      Translate(data, slskdUrl, dump).value.embeds[0].author.value.name == "Unknown User"
  {
  }

  /** A chat embed links to `<base>/chat` exactly when a non-empty base URL is configured. */
  lemma ChatAuthorLink(data: map<string, Value>, slskdUrl: Option<string>, dump: Value -> string)
    requires IsChat(MessageType(data)) && !Replayed(data)
    ensures var url := Translate(data, slskdUrl, dump).value.embeds[0].author.value.url;
      (url.Url? <==> slskdUrl.Some? && slskdUrl.value != "") &&
      (url.Url? ==> url.link == slskdUrl.value + "/chat") &&
      (!url.Url? ==> url == UrlNull)
  {
  }

  /**
   * An upload is never dropped. Its description opens with the bold base name
   * of the uploaded file and holds the formatted size and speed; the author
   * has no link and the footer names the peer.
   */
  lemma UploadFields(data: map<string, Value>, slskdUrl: Option<string>, dump: Value -> string)
    requires MessageType(data) == UploadType
    ensures var transfer := GetObject(data, "transfer");
      var username := GetString(transfer, "username", "Unknown User");
      var path := GetString(data, "localFilename", "Unknown File");
      var r := Translate(data, slskdUrl, dump);
      r.Some? && r.value.content == UploadContent &&
      var e := r.value.embeds[0];
      e.color == UploadColor && e.title == None &&
      e.author == Some(Author(username, UrlAbsent)) &&
      e.footer == "Upload to: " + username &&
      StartsWith(e.description, "**" + PosixPath.Basename(path) + "**\n") &&
      Contains(e.description, Utils.FormatBytes(GetInt(transfer, "size", 0))) &&
      Contains(e.description, Utils.FormatSpeed(GetInt(transfer, "averageSpeed", 0))) &&
      Contains(e.description, GetString(transfer, "elapsedTime", "Unknown")) &&
      Contains(e.description, GetString(transfer, "state", "Unknown"))
  {
    var transfer := GetObject(data, "transfer");
    DescriptionLayout(
      PosixPath.Basename(GetString(data, "localFilename", "Unknown File")),
      Utils.FormatBytes(GetInt(transfer, "size", 0)),
      Utils.FormatSpeed(GetInt(transfer, "averageSpeed", 0)),
      GetString(transfer, "elapsedTime", "Unknown"),
      GetString(transfer, "state", "Unknown"));
  }

  /** Where the pieces of an upload description sit. */
  lemma DescriptionLayout(filename: string, size: string, speed: string, elapsed: string, state: string)
    ensures var d := UploadDescription(filename, size, speed, elapsed, state);
      StartsWith(d, "**" + filename + "**\n") && Contains(d, size) && Contains(d, speed) &&
      Contains(d, elapsed) && Contains(d, state)
  {
    var d := UploadDescription(filename, size, speed, elapsed, state);
    var head := "**" + filename + "**\n";
    var toSize := head + "\U{1F4C1} Size: " + size;
    var toSpeed := toSize + "\n" + "\U{26A1} Speed: " + speed;
    var toElapsed := toSpeed + "\n" + "\U{23F1}\U{FE0F} Duration: " + elapsed;
    assert d == toElapsed + "\n" + "\U{2705} Status: " + state;
    assert StartsWith(toSpeed, toSpeed);
    StartsWithAppend(toSpeed, "\n", toSpeed);
    StartsWithAppend(toSpeed + "\n", "\U{23F1}\U{FE0F} Duration: ", toSpeed);
    StartsWithAppend(toSpeed + "\n" + "\U{23F1}\U{FE0F} Duration: ", elapsed, toSpeed);
    StartsWithAppend(toElapsed, "\n", toSpeed);
    StartsWithAppend(toElapsed + "\n", "\U{2705} Status: ", toSpeed);
    StartsWithAppend(toElapsed + "\n" + "\U{2705} Status: ", state, toSpeed);
    assert EndsWith(toSpeed, speed);
    ContainsViaPrefix(d, toSpeed, speed);
    assert StartsWith(toSize, toSize);
    StartsWithAppend(toSize, "\n", toSize);
    StartsWithAppend(toSize + "\n", "\U{26A1} Speed: ", toSize);
    StartsWithAppend(toSize + "\n" + "\U{26A1} Speed: ", speed, toSize);
    PrefixTrans(d, toSpeed, toSize);
    assert EndsWith(toSize, size);
    ContainsViaPrefix(d, toSize, size);
    assert StartsWith(head + "\U{1F4C1} Size: ", head);
    StartsWithAppend(head + "\U{1F4C1} Size: ", size, head);
    PrefixTrans(d, toSize, head);
    assert StartsWith(toElapsed, toElapsed);
    StartsWithAppend(toElapsed, "\n", toElapsed);
    StartsWithAppend(toElapsed + "\n", "\U{2705} Status: ", toElapsed);
    StartsWithAppend(toElapsed + "\n" + "\U{2705} Status: ", state, toElapsed);
    assert EndsWith(toElapsed, elapsed);
    ContainsViaPrefix(d, toElapsed, elapsed);
    assert StartsWith(d, d) && EndsWith(d, state);
    ContainsViaPrefix(d, d, state);
  }

  /** The labels of an upload description hold no slash: every slash in it comes from a field. */
  lemma DescriptionSlashes(filename: string, size: string, speed: string, elapsed: string, state: string)
    ensures Count(UploadDescription(filename, size, speed, elapsed, state), '/') ==
      Count(filename, '/') + Count(size, '/') + Count(speed, '/') + Count(elapsed, '/') + Count(state, '/')
  {
    var p1 := "**" + filename;
    CountAbsent("**", '/');
    CountConcat("**", filename, '/');
    var p2 := p1 + "**\n";
    CountAbsent("**\n", '/');
    CountConcat(p1, "**\n", '/');
    var p3 := p2 + "\U{1F4C1} Size: ";
    CountAbsent("\U{1F4C1} Size: ", '/');
    CountConcat(p2, "\U{1F4C1} Size: ", '/');
    var p4 := p3 + size;
    CountConcat(p3, size, '/');
    var p5 := p4 + "\n";
    CountAbsent("\n", '/');
    CountConcat(p4, "\n", '/');
    var p6 := p5 + "\U{26A1} Speed: ";
    CountAbsent("\U{26A1} Speed: ", '/');
    CountConcat(p5, "\U{26A1} Speed: ", '/');
    var p7 := p6 + speed;
    CountConcat(p6, speed, '/');
    var p8 := p7 + "\n";
    CountConcat(p7, "\n", '/');
    var p9 := p8 + "\U{23F1}\U{FE0F} Duration: ";
    CountAbsent("\U{23F1}\U{FE0F} Duration: ", '/');
    CountConcat(p8, "\U{23F1}\U{FE0F} Duration: ", '/');
    var p10 := p9 + elapsed;
    CountConcat(p9, elapsed, '/');
    var p11 := p10 + "\n";
    CountConcat(p10, "\n", '/');
    var p12 := p11 + "\U{2705} Status: ";
    CountAbsent("\U{2705} Status: ", '/');
    CountConcat(p11, "\U{2705} Status: ", '/');
    CountConcat(p12, state, '/');
  }

  /**
   * The only slash an upload description adds of its own is the one in the
   * speed's unit: the file name contributes none, whatever the path.
   */
  lemma UploadSlashes(data: map<string, Value>, slskdUrl: Option<string>, dump: Value -> string)
    requires MessageType(data) == UploadType
    ensures var transfer := GetObject(data, "transfer");
      Count(Translate(data, slskdUrl, dump).value.embeds[0].description, '/') ==
        1 + Count(GetString(transfer, "elapsedTime", "Unknown"), '/') +
        Count(GetString(transfer, "state", "Unknown"), '/')
  {
    var transfer := GetObject(data, "transfer");
    var name := PosixPath.Basename(GetString(data, "localFilename", "Unknown File"));
    var size, speed := GetInt(transfer, "size", 0), GetInt(transfer, "averageSpeed", 0);
    var elapsed := GetString(transfer, "elapsedTime", "Unknown");
    var state := GetString(transfer, "state", "Unknown");
    assert Translate(data, slskdUrl, dump).value.embeds[0].description ==
      UploadDescription(name, Utils.FormatBytes(size), Utils.FormatSpeed(speed), elapsed, state);
    CountAbsent(name, '/');
    Utils.BytesHaveNoSlash(size);
    Utils.SpeedHasOneSlash(speed);
    FieldSlashes(name, Utils.FormatBytes(size), Utils.FormatSpeed(speed), elapsed, state);
  }

  lemma FieldSlashes(filename: string, size: string, speed: string, elapsed: string, state: string)
    requires Count(filename, '/') == 0 && Count(size, '/') == 0 && Count(speed, '/') == 1
    ensures Count(UploadDescription(filename, size, speed, elapsed, state), '/') ==
      1 + Count(elapsed, '/') + Count(state, '/')
  {
    DescriptionSlashes(filename, size, speed, elapsed, state);
  }

  /**
   * The directory of the uploaded file does not show in the description once
   * it has more slashes than the description holds, as a full path such as
   * "/music/artist/" does when duration and status have none.
   */
  lemma UploadHidesDirectory(data: map<string, Value>, slskdUrl: Option<string>, dump: Value -> string)
    requires MessageType(data) == UploadType
    requires var transfer := GetObject(data, "transfer");
      Count(PosixPath.DirPart(GetString(data, "localFilename", "Unknown File")), '/') >
        1 + Count(GetString(transfer, "elapsedTime", "Unknown"), '/') +
        Count(GetString(transfer, "state", "Unknown"), '/')
    ensures !Contains(Translate(data, slskdUrl, dump).value.embeds[0].description,
      PosixPath.DirPart(GetString(data, "localFilename", "Unknown File")))
  {
    UploadSlashes(data, slskdUrl, dump);
    var desc := Translate(data, slskdUrl, dump).value.embeds[0].description;
    var dir := PosixPath.DirPart(GetString(data, "localFilename", "Unknown File"));
    if Contains(desc, dir) {
      CountOfPiece(desc, dir, '/');
    }
  }

  /** An upload notification of "/music/artist/song.mp3", 2048 bytes at 512 bytes per second. */
  predicate IsSongUpload(data: map<string, Value>)
  {
    var transfer := GetObject(data, "transfer");
    MessageType(data) == UploadType &&
    GetString(data, "localFilename", "Unknown File") == "/music/artist/song.mp3" &&
    GetString(transfer, "username", "Unknown User") == "bob" &&
    GetInt(transfer, "size", 0) == 2048 &&
    GetInt(transfer, "averageSpeed", 0) == 512 &&
    GetString(transfer, "elapsedTime", "Unknown") == "00:00:04" &&
    GetString(transfer, "state", "Unknown") == "Completed"
  }

  /** Its description shows the bold name "song.mp3", "2.0 KB" and "512 B/s", and not the directory. */
  lemma SongUploadExample(data: map<string, Value>, slskdUrl: Option<string>, dump: Value -> string)
    requires IsSongUpload(data)
    ensures var r := Translate(data, slskdUrl, dump);
      r.Some? &&
      StartsWith(r.value.embeds[0].description, "**song.mp3**\n") &&
      Contains(r.value.embeds[0].description, "2.0 KB") &&
      Contains(r.value.embeds[0].description, "512 B/s") &&
      !Contains(r.value.embeds[0].description, "/music/artist/") &&
      r.value.embeds[0].footer == "Upload to: bob"
  {
    UploadFields(data, slskdUrl, dump);
    SongName(data, slskdUrl, dump);
    SongSize(data, slskdUrl, dump);
    SongSpeed(data, slskdUrl, dump);
    SongDirectory(data, slskdUrl, dump);
  }

  lemma SongName(data: map<string, Value>, slskdUrl: Option<string>, dump: Value -> string)
    requires IsSongUpload(data)
    ensures StartsWith(Translate(data, slskdUrl, dump).value.embeds[0].description, "**song.mp3**\n")
  {
    SongPath();
    var name := PosixPath.Basename(GetString(data, "localFilename", "Unknown File"));
    assert "**" + name + "**\n" == "**song.mp3**\n";
  }

  lemma SongSize(data: map<string, Value>, slskdUrl: Option<string>, dump: Value -> string)
    requires IsSongUpload(data)
    ensures Contains(Translate(data, slskdUrl, dump).value.embeds[0].description, "2.0 KB")
  {
    UploadFields(data, slskdUrl, dump);
    Utils.BytesOf2048();
  }

  lemma SongSpeed(data: map<string, Value>, slskdUrl: Option<string>, dump: Value -> string)
    requires IsSongUpload(data)
    ensures Contains(Translate(data, slskdUrl, dump).value.embeds[0].description, "512 B/s")
  {
    UploadFields(data, slskdUrl, dump);
    Utils.SpeedOf512();
  }

  lemma SongDirectory(data: map<string, Value>, slskdUrl: Option<string>, dump: Value -> string)
    requires IsSongUpload(data)
    ensures !Contains(Translate(data, slskdUrl, dump).value.embeds[0].description, "/music/artist/")
  {
    SongPath();
    CountAbsent("00:00:04", '/');
    CountAbsent("Completed", '/');
    ThreeSlashes();
    UploadHidesDirectory(data, slskdUrl, dump);
  }

  lemma SongPath()
    ensures PosixPath.DirPart("/music/artist/song.mp3") == "/music/artist/"
    ensures PosixPath.Basename("/music/artist/song.mp3") == "song.mp3"
  {
    var path := "/music/artist/song.mp3";
    assert path == "/music/artist/" + "song.mp3";
    PosixPath.SplitUnique(path, "/music/artist/", "song.mp3");
  }

  lemma ThreeSlashes()
    ensures Count("/music/artist/", '/') == 3
  {
    CountAbsent("music", '/');
    CountAbsent("artist", '/');
    assert Count("/", '/') == 1;
    assert "/music" == "/" + "music";
    assert "/music/" == "/music" + "/";
    assert "/music/artist" == "/music/" + "artist";
    assert "/music/artist/" == "/music/artist" + "/";
    CountConcat("/", "music", '/');
    CountConcat("/music", "/", '/');
    CountConcat("/music/", "artist", '/');
    CountConcat("/music/artist", "/", '/');
  }

  /**
   * A download notification has no handler here and takes the raw rendering:
   * announced by its type, titled with it, dumped whole.
   */
  lemma DownloadIsRenderedRaw(data: map<string, Value>, slskdUrl: Option<string>, dump: Value -> string)
    requires MessageType(data) == "DownloadFileComplete"
    ensures var r := Translate(data, slskdUrl, dump);
      r.Some? &&
      r.value.content == UnknownContentLead + "DownloadFileComplete" &&
      r.value.embeds[0].title == Some("DownloadFileComplete") &&
      r.value.embeds[0].description == "```json\n" + dump(Object(data)) + "\n```"
  {
    UnhandledTypeIsDumped(data, slskdUrl, dump);
  }
}
