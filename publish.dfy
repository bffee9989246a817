/** The pure part of `publish_to_topic`: every record of the day is formatted,
    the messages are joined with a visible rule between them, and the result
    becomes the data of one Event Grid event. */
module Publisher {
  import opened Wrappers
  import opened Text
  import opened GameFormat

  /** The fields of the `EventGridEvent` the publisher sends. */
  datatype Event = Event(subject: string, data: string, eventType: string, dataVersion: string)

  const Separator: string := "<br>---<br>"
  const NoGames: string := "No games available for today."
  const Subject: string := "GameDayNotifications"
  const EventType: string := "GameDayNotification"
  const DataVersion: string := "1.0"

  /** The message for a list of formatted records: the records joined by the
      separator, or the fallback text when there are none. */
  function FinalMessage(messages: seq<string>): (r: string)
    ensures |messages| == 0 ==> r == NoGames
    ensures |messages| > 0 ==> StartsWith(r, messages[0])
  {
    if |messages| > 0 then
      JoinStartsWith(messages, Separator);
      Join(messages, Separator)
    else NoGames
  }

  /** Every record of `games` can be formatted. */
  predicate Formattable(games: seq<Game>) {
    forall i :: 0 <= i < |games| ==> Numbered(games[i].quarters.GetOr([]))
  }

  /** What `publish_to_topic(sports_data)` would send: `Success(None)` when it
      returns early on missing or empty data, the failure of the first record
      that cannot be formatted (it escapes before anything is sent), and
      otherwise the one event. */
  function Publish(data: Option<seq<Game>>): (r: Result<Option<Event>, FormatError>)
    ensures (data.None? || data.value == []) ==> r == Success(None)
    ensures data.Some? && data.value != [] ==> (r.Success? <==> Formattable(data.value))
    ensures data.Some? && data.value != [] && r.Success? ==>
              r.value.Some? && r.value.value.subject == Subject && r.value.value.eventType == EventType
              && r.value.value.dataVersion == DataVersion
  {
    if data.None? || |data.value| == 0 then Success(None)
    else
      var messages :- MapResult(FormatGame, data.value);
      Success(Some(Event(Subject, FinalMessage(messages), EventType, DataVersion)))
  }

  /** The data of the event sent for a non-empty, formattable day. */
  function Payload(games: seq<Game>): string
    requires |games| > 0 && Formattable(games)
  {
    Publish(Some(games)).value.value.data
  }

  /** A day of one game carries exactly that game's message. */
  lemma PayloadSingle(g: Game)
    requires Numbered(g.quarters.GetOr([]))
    ensures Formattable([g])
    ensures Payload([g]) == FormatGame(g).value
  {
    assert MapResult(FormatGame, [g]).value == [FormatGame(g).value];
  }

  /** The payload of two runs of games is the two payloads joined by the
      separator: messages keep the order of the records. */
  lemma PayloadAppend(xs: seq<Game>, ys: seq<Game>)
    requires |xs| > 0 && |ys| > 0 && Formattable(xs) && Formattable(ys)
    ensures Formattable(xs + ys)
    ensures Payload(xs + ys) == Payload(xs) + Separator + Payload(ys)
  {
    assert Formattable(xs + ys) by {
      forall i | 0 <= i < |xs + ys| ensures Numbered((xs + ys)[i].quarters.GetOr([])) {
        if i >= |xs| {
          assert (xs + ys)[i] == ys[i - |xs|];
        }
      }
    }
    MapResultAppend(FormatGame, xs, ys);
    JoinAppend(MapResult(FormatGame, xs).value, MapResult(FormatGame, ys).value, Separator);
  }

  /** Two games: the first message, the separator, the second message. */
  lemma PayloadTwo(a: Game, b: Game)
    requires Numbered(a.quarters.GetOr([])) && Numbered(b.quarters.GetOr([]))
    ensures Formattable([a, b])
    ensures Payload([a, b]) == FormatGame(a).value + Separator + FormatGame(b).value
  {
    PayloadSingle(a);
    PayloadSingle(b);
    PayloadAppend([a], [b]);
    assert [a] + [b] == [a, b];
  }

  /** Each record's message sits in the payload at its own place, after the
      messages of the records before it and before those of the records after it. */
  lemma PayloadAt(games: seq<Game>, i: nat)
    requires i < |games| && Formattable(games)
    ensures Payload(games)
         == (if i == 0 then "" else Payload(games[..i]) + Separator)
          + FormatGame(games[i]).value
          + (if i == |games| - 1 then "" else Separator + Payload(games[i + 1..]))
  {
    JoinMappedAt(FormatGame, games, i, Separator);
  }

  /** The fallback text "No games available for today." is never sent: an
      empty day returns before the join, and a non-empty day's payload opens
      with its first record's status line. */
  lemma FallbackUnreachable(data: Option<seq<Game>>)
    requires Publish(data).Success? && Publish(data).value.Some?
    ensures StartsWith(Publish(data).value.value.data, "Game Status: ")
    ensures Publish(data).value.value.data != NoGames
  {
    var games := data.value;
    var messages := MapResult(FormatGame, games).value;
    var payload := Publish(data).value.value.data;
    MessageOpens(games[0]);
    assert StartsWith(payload, messages[0]);
    StartsWithTrans(payload, messages[0], "Game Status: ");
    assert payload[0] == 'G';
  }

  /** A day with a record whose quarter lacks a number sends nothing, whatever
      the statuses, and the error is that of the first such record. */
  lemma UnformattableDay(games: seq<Game>, i: nat)
    requires i < |games| && !Numbered(games[i].quarters.GetOr([]))
    ensures Publish(Some(games)) == Failure(MissingQuarterNumber)
  {
  }
}
