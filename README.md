# Slskd to Discord notification translator, in Dafny

slskd (a Soulseek client) posts JSON notifications to this relay, and the relay forwards
each one to a Discord webhook. This project models the part that decides what is sent:
`format_slskd_to_discord` in formatters.py and the size and speed helpers in utils.py.
It proves properties of that translation.

The model is pure, like the source. One decoded notification (`Json.Value`, objects
read through Python-style `.get(key, default)`) maps to at most one `Formatters.Payload`.
A payload has a bot name, an avatar, a content line and a sequence of `Embed`s.

- The three tags `RoomMessageReceived`, `PrivateMessageReceived` and
  `UploadFileComplete` go to their own handlers. Every other tag goes to the raw
  renderer. A missing tag counts as `"Unknown"`.
- A chat message whose `wasReplayed` is truthy gives `None`. Truthiness is Python's,
  applied to any JSON value.
- The `SLSKD_URL` environment variable is the parameter `slskdUrl: Option<string>`.
  An unset or empty value leaves the chat author's `url` as `null`.
- `json.dumps(data, indent=2)` is the parameter `dump: Value -> string`. Only the
  fence around it is modelled.
- `format_bytes` and `format_speed` are modelled on integers. This is exact, including
  Python's floats:
  - `n / 1024**k` is Python's correctly rounded true division, so it equals the double
    nearest `n` (`Double.NearestDouble`: `n` itself below 2^53) divided by a power of two.
  - `:.1f` rounds that exact value to the nearest tenth, ties to even
    (`Decimal.RoundHalfEven`). So 1280 gives `"1.2 KB"` and 1048575 gives `"1024.0 KB"`.
  - `:.0f` on an integer prints the digits of the double nearest it.
  - Negative integers take the bottom tier, as in Python.
- `os.path.basename` is the text after the last `/` (`PosixPath.Basename`). It is
  empty for a trailing slash.

Some facts about formatters.py that the model follows:
- It has no download or directory-complete handler. A download notification takes
  the raw rendering (`Formatters.DownloadIsRenderedRaw`).
- It formats no durations or dates. `elapsedTime` is printed as it arrives.
- It adds no user-mention prefix to the content line.
- The upload footer is `"Upload to: <username>"`, and the upload author has no `url` key.

## Model

| member | source | states |
|---|---|---|
| Formatters.Translate | formatters.py:128-151 | result is `None` exactly for a room or private message that is replayed; every payload has username "Slskd", a null avatar and one embed; the embed timestamp is the event's (the nested message's for chat), default "" |
| Formatters.HandlerFor | formatters.py:141-147 | the dispatch table: each of the three tags selects its own handler, any other string selects none |
| Formatters.WebhookPayload | formatters.py:12-17 | base payload filled by update: username "Slskd", avatar null, the given content and exactly the one given embed |
| Formatters.ChatLink | formatters.py:22-27 | author url is `base + "/chat"` exactly when SLSKD_URL is set and non-empty, otherwise null |
| Formatters.MessageEmbed | formatters.py:20-32 | chat embed: author name, description, footer, color and timestamp are the arguments unchanged, no title, url from ChatLink |
| Formatters.ChatMessage | formatters.py:37 | `data.get("message", {})`: the nested object when present and an object, otherwise empty |
| Formatters.Replayed | formatters.py:39 | the replay test holds exactly when the nested message has a truthy `wasReplayed` (the default `False` is falsy) |
| Formatters.MessageType | formatters.py:138 | `data.get("type", "Unknown")`: the string under "type", "Unknown" when the key is missing |
| Formatters.EventTimestamp | formatters.py:44 | the timestamp a payload carries: the nested message's for a chat notification, the notification's own otherwise (formatters.py:63, 79 and 112 read it the same way), "" when missing |
| Formatters.RoomMessage | formatters.py:35-52 | returns None if and only if the nested message's wasReplayed is truthy |
| Formatters.PrivateMessage | formatters.py:55-71 | returns None if and only if the nested message's wasReplayed is truthy |
| Formatters.UploadDescription | formatters.py:88-94 | the description opens with the bold file name and a newline, and closes with the status line |
| Formatters.UploadComplete | formatters.py:74-107 | always builds a payload of the fixed shape (never None) |
| Formatters.UnknownMessage | formatters.py:110-125 | content is "📢 Slskd Notification: " + type, the one embed is titled with the type |
| Formatters.ReplayedChatIsDropped | formatters.py:37-40 | a room or private notification whose message is flagged replayed translates to None (the private handler checks the same flag at formatters.py:57-60) |
| Formatters.UnhandledTypeIsDumped | formatters.py:110-151 | any type outside the three tags gives a payload whose one embed is gray, titled with the type, holds the fenced dump of the whole notification, footer "Raw notification data", content "📢 Slskd Notification: " + type |
| Formatters.MissingTypeIsUnknown | formatters.py:138-151 | a notification with no type key is rendered raw under the type "Unknown" |
| Formatters.RoomMessageFields | formatters.py:35-52 | a non-replayed room message: description is the raw message text (default ""), footer "in " + roomName (default "Unknown Room"), author name default "Unknown User", room color and content line |
| Formatters.PrivateMessageFields | formatters.py:55-71 | a non-replayed private message: raw text, footer "Private Message", author name default "Unknown User", private color and content line |
| Formatters.ChatAuthorLink | formatters.py:20-32 | both chat handlers link the author to base + "/chat" exactly when a non-empty base URL is configured, else null |
| Formatters.UploadFields | formatters.py:74-107 | an upload is never dropped; description starts with "**" + basename(localFilename) + "**\n" and contains format_bytes(size), format_speed(averageSpeed), elapsedTime and state; author has no url key; footer "Upload to: " + username |
| Formatters.DescriptionLayout | formatters.py:88-94 | the description template opens with the bold file name and holds the size, speed, duration and status texts |
| Formatters.DescriptionSlashes | formatters.py:88-94 | the description holds exactly as many slashes as its five fields together |
| Formatters.UploadSlashes | formatters.py:76-94 | an upload description holds 1 + (slashes of duration) + (slashes of status) slashes: none from the file name, one from "B/s" |
| Formatters.UploadHidesDirectory | formatters.py:78-94 | a directory part with more slashes than that does not occur in the description |
| Formatters.SongUploadExample | formatters.py:74-107 | uploading "/music/artist/song.mp3" of 2048 bytes at 512 B/s: "**song.mp3**\n" first, "2.0 KB" and "512 B/s" inside, "/music/artist/" nowhere |
| Formatters.SongName | formatters.py:82-89 | in that example the description opens with "**song.mp3**\n" |
| Formatters.SongSize | formatters.py:90 | in that example the description holds "2.0 KB" |
| Formatters.SongSpeed | formatters.py:91 | in that example the description holds "512 B/s" |
| Formatters.SongDirectory | formatters.py:82-94 | in that example "/music/artist/" does not occur in the description |
| Formatters.DownloadIsRenderedRaw | formatters.py:141-151 | a "DownloadFileComplete" notification has no handler and is rendered raw |
| Json.Get | formatters.py:37 | `obj.get(key, default)`: the stored value when the key is present, the default otherwise |
| Json.Truthy | formatters.py:39 | Python truthiness: false exactly for null, false, 0, "", [] and {} |
| Json.GetString | formatters.py:42-45 | the stored string when the key holds a string, the default when it is missing or holds another type |
| Json.GetInt | formatters.py:83-84 | the stored integer when the key holds an integer, the default when it is missing or holds another type |
| Json.GetObject | formatters.py:76 | the stored object when the key holds an object, `{}` when it is missing or holds another type |
| PosixPath.RFindSlash | formatters.py:82 | the index of the last "/" (no "/" after it), or -1 when there is none |
| PosixPath.Basename | formatters.py:82 | the base name contains no "/" and is a suffix of the path |
| PosixPath.SplitUnique | formatters.py:82 | directory part + base name is the only split of the path into an empty or "/"-terminated head and a "/"-free tail |
| PosixPath.SplitParts | formatters.py:82 | the path is its directory part (empty or ending in "/") followed by its base name |
| Utils.TierOf | utils.py:8-15 | the unit the if/elif chain picks lies in its own tier range |
| Utils.TiersPartition | utils.py:8-15 | the four tiers are disjoint and cover every integer: n lies in tier u exactly when the chain picks u |
| Utils.FormatBytes | utils.py:6-15 | the text ends in " " and the unit of the tier that holds n |
| Utils.FormatSpeed | utils.py:18-27 | the text ends in " ", the unit of the tier that holds n, and "/s" |
| Utils.Tenths | utils.py:11-15 | t·d lies within d/2 of 10 times the double nearest n, and a tie gives an even t: `.1f` of that double divided by d |
| Utils.WholeFloatToString | utils.py:21 | for an integer of magnitude below 2^53, `:.0f` writes exactly what `str` writes |
| Utils.FormatBytesUnit | utils.py:6-15 | format_bytes(n) ends in " " + unit exactly for the unit whose tier holds n, so exactly one unit suffix is written |
| Utils.FormatBytesSmall | utils.py:8-9 | below 1024 the text before " B" is the digits of n without a leading zero, after "-" when n is negative, and reads back as n |
| Utils.FormatBytesScaled | utils.py:10-15 | from 1024 on, the number before the unit has one digit after the point and no leading zero, and reads back as t tenths, with t·d the nearest multiple of d to 10·m, ties to even; m is the double nearest n: a multiple of the spacing Ulp(n) with at most 2^53 steps, within half a spacing of n, a tie taking an even significand, and n itself below 2^53 |
| Utils.FormatBytesMonotone | utils.py:10-15 | within one tier (below 2^53), a larger count never shows a smaller number |
| Utils.SpeedIsBytesPerSecond | utils.py:18-27 | format_speed(n) == format_bytes(n) + "/s" for every integer above -2^53: same thresholds and numbers, only the suffix differs |
| Utils.BytesHaveNoSlash | utils.py:6-15 | format_bytes never writes "/" |
| Utils.SpeedHasOneSlash | utils.py:18-27 | format_speed writes exactly one "/" |
| Utils.BytesOf1023 | utils.py:8-9 | format_bytes(1023) == "1023 B" |
| Utils.BytesOf1024 | utils.py:10-11 | format_bytes(1024) == "1.0 KB" |
| Utils.BytesOf2048 | utils.py:10-11 | format_bytes(2048) == "2.0 KB" |
| Utils.BytesOf1280 | utils.py:10-11 | format_bytes(1280) == "1.2 KB" (the tie 1.25 rounds to even) |
| Utils.BytesOf1048575 | utils.py:10-11 | format_bytes(1048575) == "1024.0 KB" (rounding takes the KB figure to 1024.0) |
| Utils.BytesOf1048576 | utils.py:12-13 | format_bytes(1048576) == "1.0 MB" |
| Utils.BytesOfTebibyte | utils.py:14-15 | format_bytes(1024^4) == "1024.0 GB": there is no tier above GB |
| Utils.SpeedOf512 | utils.py:20-21 | format_speed(512) == "512 B/s" |
| Utils.SpeedOf2048 | utils.py:22-23 | format_speed(2048) == "2.0 KB/s" |
| Decimal.NatToString | utils.py:9 | str(n): at least one character, all decimal digits, no leading zero |
| Decimal.NatToStringInjective | utils.py:9 | different numbers are written differently |
| Decimal.ParseNatToString | utils.py:9 | the digits written for n read back as n |
| Decimal.IntToString | utils.py:9 | str(i): digits without a leading zero, preceded by "-" exactly for negative i |
| Decimal.ParseIntToString | utils.py:9 | the text written for an integer reads back as that integer |
| Decimal.RoundHalfEven | utils.py:11 | the result times d lies within d/2 of x, and an exact tie gives an even result |
| Decimal.RoundHalfEvenUnique | utils.py:11 | those two conditions determine the rounded value uniquely |
| Decimal.RoundHalfEvenMonotone | utils.py:11 | rounding is monotone in x |
| Decimal.TenthsToString | utils.py:11 | the ".1f" text of t tenths: the digits of t / 10, a point, then the digit t % 10 |
| Decimal.TenthsRoundTrip | utils.py:11 | the ".1f" text of t tenths has one digit after the point, no leading zero before it, and reads back as t |
| Double.NearestDouble | utils.py:11 | the integer as float: unchanged below 2^53, and never more than n/2^53 away from n |
| Double.Ulp | utils.py:11 | the spacing of doubles at n: 1 below 2^53, 2^(b-53) for an n of b >= 54 bits |
| Double.NearestDoubleRounds | utils.py:11 | the double nearest n is a multiple of Ulp(n) with at most 2^53 steps, within half a spacing of n, and a tie takes the even significand (IEEE 754 round to nearest, ties to even) |
| Double.BitLength | utils.py:11 | n has b binary digits: 2^(b-1) <= n < 2^b |

## Left out

- server.py is not part of this model. It is HTTP request handling with 200, 400, 404
  and 500 responses and a health endpoint: I/O glue over the standard HTTP server.
- webhook.py is not part of this model. It reads environment variables, installs signal
  handlers, sets up logging and runs `serve_forever`.
- discord_client.py is not part of this model. It posts over the network with a timeout
  and catches exceptions. Its only decision is that a `None` translation counts as
  success without posting (discord_client.py:27-30). Translate says exactly when that
  happens.
- __init__.py only re-exports names.
- The text `json.dumps` produces is abstract: `dump` is a parameter.
- Logging calls are not modelled.
- Non-integer JSON numbers are not representable in `Json.Value`. So a float
  `averageSpeed` (float formatting) is left out, and both helpers take integers.
- Field values of the wrong JSON type are read as the field's default. This covers a
  non-object `message` or `transfer`, a non-string `type` or `username`, and a non-integer
  `size`. Python would raise an exception in some of these cases. In others it would
  carry the raw value (for example `null`) into the payload or print its `str()`.
- Utils.FormatBytes: in the GB tier Python raises OverflowError once the correctly
  rounded quotient n / 2^30 reaches 2^1024, that is for n of at least 2^1054 - 2^1000.
  The model has no largest double, so it writes that quotient's digits instead.
- Utils.FormatSpeed: the same OverflowError in the GB tier. Below 1024, `:.0f` first
  converts n to a float, which raises OverflowError for n at or below
  -(2^1024 - 2^970); the model writes digits there too.
- Utils.FormatBytesScaled: states the GB tier without the OverflowError above.
- Utils.WholeFloatToString: writes the digits of the nearest double for every integer,
  including those at or below -(2^1024 - 2^970), where Python raises OverflowError.
- Double.NearestDouble: exponents are unbounded, so no integer rounds to infinity.
- Utils.FormatBytesMonotone: proved only below 2^53, where the float conversion is exact.
- Utils.SpeedIsBytesPerSecond: stated for n > -2^53. Below that, `:.0f` prints the
  rounded double while `str()` prints the exact integer.
- Formatters.UploadHidesDirectory: "the description never contains the directory part"
  is false in general. For the path "KB/x" at 2048 B/s, "KB/" occurs inside "2.0 KB/s".
  So the lemma needs the directory to hold more slashes than the description does.
- Python dictionaries keep key order; the payload datatype does not. The order of the
  payload's own keys does not affect what Discord receives.
- Formatters.UnknownMessage: `dump` is handed an unordered object. `json.dumps` writes
  keys in the order the notification's decoder read them, nested objects included, and
  that text is the raw embed's description. So two notifications that differ only in key
  order get the same description here, where Python's would differ.
