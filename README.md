# Game-day notification formatting

This project models the pure core of the NBA game-day notifier in Dafny.

- `GameDayNotification.format_game_data` turns one game record from the scores API into an HTML-flavoured text, with one line per fact and `<br>` ending each line.
- The formatting part of `publish_to_topic` formats every record of the day and joins the messages with `<br>---<br>`. The result becomes the data of a single Event Grid event.

Modules:

- `Wrappers` (`wrappers.dfy`): `Option` and `Result`, and `MapResult`. `MapResult` is the all-or-nothing map that a list comprehension performs when its element expression can raise.
- `Text` (`text.dfy`): `Join` (`str.join`) and `Split` (`str.split`) on strings. It also holds the facts that let a joined text be split back into its parts.
- `GameFormat` (`game_format.dfy`): the game record, the quarter line, `FormatGame`, and the lemmas that read a message back line by line.
- `Publisher` (`publish.dfy`): the event, the payload and `Publish`.

How the record is modelled:

- A record is a datatype of optional fields. `dict.get(key, default)` becomes `GetOr(default)`.
- A quarter is a datatype too. Its `Number` is read with `q['Number']`, which has no default. A quarter without a number therefore raises `KeyError`. The model returns `Failure(MissingQuarterNumber)` in that case.
- The quarter line is built before the status is inspected, so the failure happens whatever the status is. `FormatGame` fails exactly when some quarter lacks a number. `Publish` then fails as well, because that error is raised on line 93, outside the `try`, and no event is sent.
- `Publish(None)` and `Publish(Some([]))` give `Success(None)`: nothing is sent. Otherwise the result is the one event.

How the layout is proved:

- The line structure of a message is stated by splitting it at `<br>`. `Text.SplitJoin` gives the exact list of lines as long as no field value contains `<br>` (predicate `GameFormat.Plain`).
- `GameFormat.LayoutText` states each branch's lines, each closed by `<br>`, for every record, with no such assumption. So do the header, the closing `<br>`, the score lines (`FinalScoreShown`, `CurrentScoreShown`) and the exact texts of the Scheduled and default branches.

Two facts about the code that the model keeps:

- `format_game_data` is partial for every status: `q['Number']` raises `KeyError` for a quarter without a number.
- The line break `<br>` is hard-coded in every f-string of the message.

## Model

| member | source | states |
|---|---|---|
| Wrappers.MapResult | nba_notifications.py:48-53 | The comprehension succeeds iff every element succeeds. It then gives one result per element, in order. Otherwise the error is that of the first failing element. |
| Wrappers.MapResultAppend | nba_notifications.py:93 | Mapping a concatenation succeeds on both halves and yields the concatenation of their results. |
| Wrappers.MapResultSlice | nba_notifications.py:93 | Mapping a slice yields that slice of the mapped results. |
| Text.Join | nba_notifications.py:48 | The length of `sep.join(parts)` is the parts' total length plus one separator between each neighbouring pair. |
| Text.JoinAppend | nba_notifications.py:94 | Joining `xs + ys` equals joining `xs`, one separator, then joining `ys`. |
| Text.JoinAt | nba_notifications.py:94 | Each part sits in the joined text between the join of the parts before it and the join of the parts after it. |
| Text.JoinMappedAt | nba_notifications.py:93-94 | The same placement for `sep.join([f(x) for x in xs])`: element `i`'s text sits between the joins for the elements before and after it. |
| Text.JoinStartsWith | nba_notifications.py:94 | A join of at least one part starts with the first part. |
| GameFormat.QuarterEntry | nba_notifications.py:50 | One quarter's entry fails with `MissingQuarterNumber` exactly when the quarter has no `Number`. Otherwise it opens with "Q", the number, ": " and the away score, and closes with "-" and the home score. Each missing score is shown as "N/A", and the entry has no other characters. |
| GameFormat.QuarterScores | nba_notifications.py:47-53 | The quarter line succeeds iff every quarter has a `Number`. No quarters gives the empty text. |
| GameFormat.QuarterScoresSingle | nba_notifications.py:50 | One quarter's entry is `"Q" + number + ": " + away + "-" + home`, with each missing score shown as "N/A". |
| GameFormat.QuarterScoresAppend | nba_notifications.py:48-53 | The quarter line of `xs + ys` is the line of `xs`, then ", ", then the line of `ys`. So there is one entry per quarter, in input order. |
| GameFormat.FinalScoreParts | nba_notifications.py:40-42 | The score text is the away score, then one "-", then the home score. Each missing score is shown as "N/A". |
| GameFormat.FormatGame | nba_notifications.py:34-85 | Formatting succeeds iff every quarter of the record (none when `Quarters` is absent) has a `Number`, whatever the status. |
| GameFormat.LayoutText | nba_notifications.py:55-85 | For any field values, the message is its status branch's display lines, in order, each closed by `<br>`. Final has status, matchup, final score, start time, channel and quarter line. InProgress has status, matchup, current score, last play and channel. Scheduled has status, matchup, start time and channel. Any other status has status, matchup and the notice. |
| GameFormat.ReadMessage | nba_notifications.py:55-85 | Splitting a message at `<br>` gives exactly the display lines of its status branch, then an empty piece after the final `<br>`. |
| GameFormat.MessageHeader | nba_notifications.py:55-85 | In every branch the message starts with `"Game Status: " + status + "<br>" + away + " vs " + home + "<br>"`. Status and teams default to "Unknown". |
| GameFormat.MessageEnd | nba_notifications.py:55-85 | In every branch the message ends with `<br>`. |
| GameFormat.MessageOpens | nba_notifications.py:55-85 | Every message starts with "Game Status: ". |
| GameFormat.FinalLines | nba_notifications.py:55-63 | A "Final" record has exactly six lines, in this order: status; matchup (defaults "Unknown"); "Final Score: away-home" (defaults "N/A"); "Start Time: " (default "Unknown"); "Channel: " (default "Unknown"); "Quarter Scores: " and the quarter line. |
| GameFormat.InProgressLines | nba_notifications.py:64-72 | An "InProgress" record has exactly five lines: status; matchup; "Current Score: away-home"; "Last Play: " (default "N/A"); "Channel: ". It has no Start Time line and no Quarter Scores line. |
| GameFormat.ScheduledLines | nba_notifications.py:73-79 | A "Scheduled" record has exactly four lines: status; matchup; "Start Time: "; "Channel: ". It has no score line. |
| GameFormat.OtherLines | nba_notifications.py:80-85 | For any other status, including an absent one shown as "Unknown", the lines are exactly: status; matchup; "Details are unavailable at the moment.". |
| GameFormat.OtherText | nba_notifications.py:80-85 | For any other status, the whole message is the two header lines followed by "Details are unavailable at the moment.<br>", for any field values. |
| GameFormat.FinalScoreShown | nba_notifications.py:55-59 | For any field values, a "Final" message opens with the header and then the line "Final Score: away-home". |
| GameFormat.CurrentScoreShown | nba_notifications.py:64-70 | For any field values, an "InProgress" message opens with the header, then "Current Score: away-home", then "Last Play: " and the last play ("N/A" when absent). |
| GameFormat.ScheduledText | nba_notifications.py:73-79 | For any field values, a "Scheduled" message is exactly the header, the start-time line and the channel line. It has no score line. |
| GameFormat.FinalWithoutQuarters | nba_notifications.py:47-63 | A "Final" record with no quarters, or no `Quarters` key, ends with "Quarter Scores: <br>". |
| GameFormat.EmptyRecord | nba_notifications.py:37-85 | A record with no keys reads as the lines "Game Status: Unknown", "Unknown vs Unknown" and "Details are unavailable at the moment.". |
| GameFormat.ScheduledExample | nba_notifications.py:73-79 | The scheduled game BOS at NYK, starting 2024-01-01T19:00 on ESPN, reads as the status, "BOS vs NYK", the start time and the channel, with no score. |
| Publisher.FinalMessage | nba_notifications.py:94 | No messages give the fallback text. Otherwise the joined text starts with the first message. |
| Publisher.Publish | nba_notifications.py:89-94 | Absent or empty data sends nothing. Otherwise the result succeeds iff every record can be formatted. On success exactly one event is sent, with subject "GameDayNotifications", type "GameDayNotification" and version "1.0". |
| Publisher.PayloadSingle | nba_notifications.py:93-94 | A day of one record sends exactly that record's message. |
| Publisher.PayloadAppend | nba_notifications.py:93-94 | The payload for `xs + ys` is the payload for `xs`, then "<br>---<br>", then the payload for `ys`. So the messages stay in input order. |
| Publisher.PayloadTwo | nba_notifications.py:93-94 | Two records give `format(a) + "<br>---<br>" + format(b)`. |
| Publisher.PayloadAt | nba_notifications.py:93-94 | Record `i`'s message sits in the payload between the payload of the records before it and the payload of the records after it, with one separator on each side that has records. |
| Publisher.FallbackUnreachable | nba_notifications.py:89-94 | Every payload that is sent starts with "Game Status: ". So the text "No games available for today." is never sent. |
| Publisher.UnformattableDay | nba_notifications.py:93 | A day with any record holding a quarter without a number fails with `MissingQuarterNumber`, and nothing is sent. |

## Left out

- `fetch_sports_data` (nba_notifications.py:18-32) is not modelled: it reads the wall clock, makes an HTTP request and swallows its errors. The day's data is the input of `Publisher.Publish` instead.
- `__init__` (nba_notifications.py:12-16) is not modelled: it only reads environment variables.
- The Event Grid client, the `send`, the handling of its exceptions, and the logging and `print` calls (nba_notifications.py:90, 95-114) are not modelled. `Publisher.Publish` returns the event that would be sent.
- function_app.py is not part of this model: it is a timer trigger that calls fetch and then publish.
- Python's `str()` rendering of non-string JSON values, such as integer scores and quarter numbers, is not modelled. Field values are taken as already-rendered text.
- The model does not cover a JSON `null` for a present key, a `Quarters` value that is not a list, or quarter entries that are not objects. A present key always holds text, and `Quarters` is a list of quarter records.
- The reading of a message as a list of lines assumes that no field value contains `<br>`. This applies to the members below. The header and footer lemmas need no such assumption.
- GameFormat.ReadMessage: assumes `Plain(g)`, that no field value contains `<br>`.
- GameFormat.FinalLines: assumes `Plain(g)`.
- GameFormat.InProgressLines: assumes `Plain(g)`.
- GameFormat.ScheduledLines: assumes `Plain(g)`.
- GameFormat.OtherLines: assumes `Plain(g)`. `GameFormat.OtherText` states the exact text without this assumption.
