/** The display text of one game record: `GameDayNotification.format_game_data`. */
module GameFormat {
  import opened Wrappers
  import opened Text

  /** One entry of a record's `Quarters` list. `Number` is looked up without a
      default, so its absence is an error; the two scores fall back to "N/A". */
  datatype Quarter = Quarter(number: Option<string>, awayScore: Option<string>, homeScore: Option<string>)

  /** A game record as the scores API returns it. Every key may be absent;
      values are taken as already rendered to text. */
  datatype Game = Game(
    status: Option<string>,
    awayTeam: Option<string>,
    homeTeam: Option<string>,
    awayTeamScore: Option<string>,
    homeTeamScore: Option<string>,
    dateTime: Option<string>,
    channel: Option<string>,
    lastPlay: Option<string>,
    quarters: Option<seq<Quarter>>)

  /** The `KeyError: 'Number'` raised for a quarter without a number. */
  datatype FormatError = MissingQuarterNumber

  const Unknown: string := "Unknown"
  const NotAvailable: string := "N/A"
  const LineBreak: string := "<br>"
  const DetailsUnavailable: string := "Details are unavailable at the moment."

  /** `f"Q{q['Number']}: {away}-{home}"`: fails exactly when the quarter has no
      number; otherwise opens with "Q", the number and ": ", and closes with
      "-" and the home score, "N/A" standing for each missing score. */
  function QuarterEntry(q: Quarter): (r: Result<string, FormatError>)
    ensures r.Failure? <==> q.number.None?
    ensures r.Failure? ==> r.error == MissingQuarterNumber
    ensures r.Success? ==> StartsWith(r.value, "Q" + q.number.value + ": " + q.awayScore.GetOr(NotAvailable))
    ensures r.Success? ==> EndsWith(r.value, "-" + q.homeScore.GetOr(NotAvailable))
    ensures r.Success? ==> |r.value| == 4 + |q.number.value| + |q.awayScore.GetOr(NotAvailable)| + |q.homeScore.GetOr(NotAvailable)|
  {
    match q.number
    case None => Failure(MissingQuarterNumber)
    case Some(n) => Success("Q" + n + ": " + q.awayScore.GetOr(NotAvailable) + "-" + q.homeScore.GetOr(NotAvailable))
  }

  /** Every quarter carries a `Number`. */
  predicate Numbered(quarters: seq<Quarter>) {
    forall i :: 0 <= i < |quarters| ==> quarters[i].number.Some?
  }

  /** The quarter line's text: the entries, in order, joined by ", ". */
  function QuarterScores(quarters: seq<Quarter>): (r: Result<string, FormatError>)
    ensures r.Success? <==> Numbered(quarters)
    ensures quarters == [] ==> r == Success("")
  {
    var entries :- MapResult(QuarterEntry, quarters);
    Success(Join(entries, ", "))
  }

  /** `final_score`: the away and home scores joined by "-". */
  function FinalScore(g: Game): string {
    g.awayTeamScore.GetOr(NotAvailable) + "-" + g.homeTeamScore.GetOr(NotAvailable)
  }

  /** The score text is the away score, one "-", then the home score, "N/A"
      standing for each missing score. */
  lemma FinalScoreParts(g: Game)
    ensures StartsWith(FinalScore(g), g.awayTeamScore.GetOr(NotAvailable))
    ensures EndsWith(FinalScore(g), g.homeTeamScore.GetOr(NotAvailable))
    ensures |FinalScore(g)| == |g.awayTeamScore.GetOr(NotAvailable)| + 1 + |g.homeTeamScore.GetOr(NotAvailable)|
    ensures FinalScore(g)[|g.awayTeamScore.GetOr(NotAvailable)|] == '-'
  {
  }

  /** `format_game_data(game)`. The quarter line is built before the status is
      looked at, so a quarter without a number fails every record. Each branch
      is the source's sequence of f-strings, one per line. */
  function FormatGame(g: Game): (r: Result<string, FormatError>)
    ensures r.Success? <==> Numbered(g.quarters.GetOr([]))
  {
    var status := g.status.GetOr(Unknown);
    var awayTeam := g.awayTeam.GetOr(Unknown);
    var homeTeam := g.homeTeam.GetOr(Unknown);
    var finalScore := FinalScore(g);
    var startTime := g.dateTime.GetOr(Unknown);
    var channel := g.channel.GetOr(Unknown);
    var quarterScores :- QuarterScores(g.quarters.GetOr([]));
    if status == "Final" then
      Success(("Game Status: " + status) + LineBreak
        + (awayTeam + " vs " + homeTeam) + LineBreak
        + ("Final Score: " + finalScore) + LineBreak
        + ("Start Time: " + startTime) + LineBreak
        + ("Channel: " + channel) + LineBreak
        + ("Quarter Scores: " + quarterScores) + LineBreak)
    else if status == "InProgress" then
      var lastPlay := g.lastPlay.GetOr(NotAvailable);
      Success(("Game Status: " + status) + LineBreak
        + (awayTeam + " vs " + homeTeam) + LineBreak
        + ("Current Score: " + finalScore) + LineBreak
        + ("Last Play: " + lastPlay) + LineBreak
        + ("Channel: " + channel) + LineBreak)
    else if status == "Scheduled" then
      Success(("Game Status: " + status) + LineBreak
        + (awayTeam + " vs " + homeTeam) + LineBreak
        + ("Start Time: " + startTime) + LineBreak
        + ("Channel: " + channel) + LineBreak)
    else
      Success(("Game Status: " + status) + LineBreak
        + (awayTeam + " vs " + homeTeam) + LineBreak
        + DetailsUnavailable + LineBreak)
  }

  // ---------------------------------------------------------------------
  // Reading the message back line by line
  // ---------------------------------------------------------------------

  /** `s` does not contain the line break. */
  predicate Free(s: string) {
    !Contains(s, LineBreak)
  }

  /** A present field value does not contain the line break. */
  predicate FreeField(o: Option<string>) {
    o.Some? ==> Free(o.value)
  }

  /** No value of the record, nor of its quarters, contains the line break. */
  predicate Plain(g: Game) {
    && FreeField(g.status) && FreeField(g.awayTeam) && FreeField(g.homeTeam)
    && FreeField(g.awayTeamScore) && FreeField(g.homeTeamScore)
    && FreeField(g.dateTime) && FreeField(g.channel) && FreeField(g.lastPlay)
    && var quarters := g.quarters.GetOr([]);
       forall i :: 0 <= i < |quarters| ==>
         FreeField(quarters[i].number) && FreeField(quarters[i].awayScore) && FreeField(quarters[i].homeScore)
  }

  /** Lines, each closed by a line break. */
  function Terminated(lines: seq<string>): string {
    if |lines| == 0 then "" else Terminated(lines[..|lines| - 1]) + lines[|lines| - 1] + LineBreak
  }

  lemma TerminatedSnoc(lines: seq<string>, last: string)
    ensures Terminated(lines + [last]) == Terminated(lines) + last + LineBreak
  {
    assert (lines + [last])[..|lines|] == lines;
  }

  lemma {:induction false} TerminatedIsJoin(lines: seq<string>)
    ensures Terminated(lines) == Join(lines + [""], LineBreak)
  {
    if |lines| > 0 {
      var init, last := lines[..|lines| - 1], lines[|lines| - 1];
      assert lines == init + [last];
      JoinAppend(lines, [""], LineBreak);
      if |init| == 0 {
        assert lines == [last];
      } else {
        TerminatedIsJoin(init);
        JoinAppend(init, [""], LineBreak);
        JoinAppend(init, [last], LineBreak);
      }
    }
  }

  /** A text made of line-break-free lines, each closed by a line break, splits
      back into exactly those lines and the empty text after the last break. */
  lemma ReadLines(lines: seq<string>)
    requires forall l :: l in lines ==> Free(l)
    ensures Split(Terminated(lines), LineBreak) == lines + [""]
  {
    var parts := lines + [""];
    PartsFree(lines);
    LineBreakBorderFree();
    SplitJoin(parts, LineBreak);
    TerminatedIsJoin(lines);
  }

  lemma LineBreakBorderFree()
    ensures BorderFree(LineBreak)
  {
    BorderFreeByFirst(LineBreak);
  }

  lemma PartsFree(lines: seq<string>)
    requires forall l :: l in lines ==> Free(l)
    ensures forall i :: 0 <= i < |lines + [""]| ==> !Contains((lines + [""])[i], LineBreak)
  {
    FreeByFirst("", LineBreak);
    var parts := lines + [""];
    forall i | 0 <= i < |parts| ensures !Contains(parts[i], LineBreak) {
      if i < |lines| {
        assert parts[i] == lines[i] && lines[i] in lines;
      }
    }
  }

  lemma FreeDefault(o: Option<string>, default: string)
    requires FreeField(o) && '<' !in default
    ensures Free(o.GetOr(default))
  {
    FreeByFirst(default, LineBreak);
  }

  /** The displayed fields of a plain record are free of the line break. */
  lemma DisplayedFree(g: Game)
    requires Plain(g)
    ensures Free(g.status.GetOr(Unknown)) && Free(g.dateTime.GetOr(Unknown)) && Free(g.channel.GetOr(Unknown))
    ensures Free(g.awayTeam.GetOr(Unknown) + " vs " + g.homeTeam.GetOr(Unknown))
    ensures Free(FinalScore(g))
    ensures Free(g.lastPlay.GetOr(NotAvailable))
  {
    FreeDefault(g.status, Unknown);
    FreeDefault(g.awayTeam, Unknown);
    FreeDefault(g.homeTeam, Unknown);
    FreeDefault(g.awayTeamScore, NotAvailable);
    FreeDefault(g.homeTeamScore, NotAvailable);
    FreeDefault(g.dateTime, Unknown);
    FreeDefault(g.channel, Unknown);
    FreeDefault(g.lastPlay, NotAvailable);
    FreeGlue(g.awayTeam.GetOr(Unknown), " vs ", g.homeTeam.GetOr(Unknown), LineBreak);
    FreeGlue(g.awayTeamScore.GetOr(NotAvailable), "-", g.homeTeamScore.GetOr(NotAvailable), LineBreak);
  }

  /** The quarter line of a plain record is free of the line break. */
  lemma QuarterScoresFree(g: Game)
    requires Plain(g) && Numbered(g.quarters.GetOr([]))
    ensures Free(QuarterScores(g.quarters.GetOr([])).value)
  {
    var quarters := g.quarters.GetOr([]);
    var entries := MapResult(QuarterEntry, quarters).value;
    forall i | 0 <= i < |entries| ensures Free(entries[i]) {
      var q := quarters[i];
      var n, a, h := q.number.value, q.awayScore.GetOr(NotAvailable), q.homeScore.GetOr(NotAvailable);
      FreeDefault(q.awayScore, NotAvailable);
      FreeDefault(q.homeScore, NotAvailable);
      FreeLabelled("Q", n, LineBreak);
      FreeGlue("Q" + n, ": ", a, LineBreak);
      FreeGlue("Q" + n + ": " + a, "-", h, LineBreak);
    }
    JoinFree(entries, ", ", LineBreak);
  }

  // Terminated unfolded for the fixed line counts of the four status branches
  // (three to six lines), kept apart so that each proof stays small.

  lemma TerminatedThree(l0: string, l1: string, l2: string)
    ensures Terminated([l0, l1, l2]) == l0 + LineBreak + l1 + LineBreak + l2 + LineBreak
  {
    TerminatedSnoc([], l0);
    TerminatedSnoc([l0], l1);
    TerminatedSnoc([l0, l1], l2);
    assert [] + [l0] == [l0];
    assert [l0] + [l1] == [l0, l1];
    assert [l0, l1] + [l2] == [l0, l1, l2];
  }

  lemma TerminatedFour(l0: string, l1: string, l2: string, l3: string)
    ensures Terminated([l0, l1, l2, l3]) == l0 + LineBreak + l1 + LineBreak + l2 + LineBreak + l3 + LineBreak
  {
    TerminatedSnoc([], l0);
    TerminatedSnoc([l0], l1);
    TerminatedSnoc([l0, l1], l2);
    TerminatedSnoc([l0, l1, l2], l3);
    assert [] + [l0] == [l0];
    assert [l0] + [l1] == [l0, l1];
    assert [l0, l1] + [l2] == [l0, l1, l2];
    assert [l0, l1, l2] + [l3] == [l0, l1, l2, l3];
  }

  lemma TerminatedFive(l0: string, l1: string, l2: string, l3: string, l4: string)
    ensures Terminated([l0, l1, l2, l3, l4]) == l0 + LineBreak + l1 + LineBreak + l2 + LineBreak + l3 + LineBreak + l4 + LineBreak
  {
    TerminatedSnoc([], l0);
    TerminatedSnoc([l0], l1);
    TerminatedSnoc([l0, l1], l2);
    TerminatedSnoc([l0, l1, l2], l3);
    TerminatedSnoc([l0, l1, l2, l3], l4);
    assert [] + [l0] == [l0];
    assert [l0] + [l1] == [l0, l1];
    assert [l0, l1] + [l2] == [l0, l1, l2];
    assert [l0, l1, l2] + [l3] == [l0, l1, l2, l3];
    assert [l0, l1, l2, l3] + [l4] == [l0, l1, l2, l3, l4];
  }

  lemma TerminatedSix(l0: string, l1: string, l2: string, l3: string, l4: string, l5: string)
    ensures Terminated([l0, l1, l2, l3, l4, l5]) == l0 + LineBreak + l1 + LineBreak + l2 + LineBreak + l3 + LineBreak + l4 + LineBreak + l5 + LineBreak
  {
    TerminatedSnoc([], l0);
    TerminatedSnoc([l0], l1);
    TerminatedSnoc([l0, l1], l2);
    TerminatedSnoc([l0, l1, l2], l3);
    TerminatedSnoc([l0, l1, l2, l3], l4);
    TerminatedSnoc([l0, l1, l2, l3, l4], l5);
    assert [] + [l0] == [l0];
    assert [l0] + [l1] == [l0, l1];
    assert [l0, l1] + [l2] == [l0, l1, l2];
    assert [l0, l1, l2] + [l3] == [l0, l1, l2, l3];
    assert [l0, l1, l2, l3] + [l4] == [l0, l1, l2, l3, l4];
    assert [l0, l1, l2, l3, l4] + [l5] == [l0, l1, l2, l3, l4, l5];
  }

  /** Every line the formatter can produce for a plain record is free of the
      line break. */
  lemma LinesFree(g: Game)
    requires Plain(g)
    ensures Free("Game Status: " + g.status.GetOr(Unknown))
    ensures Free(g.awayTeam.GetOr(Unknown) + " vs " + g.homeTeam.GetOr(Unknown))
    ensures Free("Final Score: " + FinalScore(g)) && Free("Current Score: " + FinalScore(g))
    ensures Free("Start Time: " + g.dateTime.GetOr(Unknown)) && Free("Channel: " + g.channel.GetOr(Unknown))
    ensures Free("Last Play: " + g.lastPlay.GetOr(NotAvailable))
    ensures Numbered(g.quarters.GetOr([])) ==> Free("Quarter Scores: " + QuarterScores(g.quarters.GetOr([])).value)
    ensures Free(DetailsUnavailable)
  {
    DisplayedFree(g);
    FreeLabelled("Game Status: ", g.status.GetOr(Unknown), LineBreak);
    FreeLabelled("Final Score: ", FinalScore(g), LineBreak);
    FreeLabelled("Current Score: ", FinalScore(g), LineBreak);
    FreeLabelled("Start Time: ", g.dateTime.GetOr(Unknown), LineBreak);
    FreeLabelled("Channel: ", g.channel.GetOr(Unknown), LineBreak);
    FreeLabelled("Last Play: ", g.lastPlay.GetOr(NotAvailable), LineBreak);
    if Numbered(g.quarters.GetOr([])) {
      QuarterScoresFree(g);
      FreeLabelled("Quarter Scores: ", QuarterScores(g.quarters.GetOr([])).value, LineBreak);
    }
    FreeByFirst(DetailsUnavailable, LineBreak);
  }

  // ---------------------------------------------------------------------
  // The lines of each status's message
  // ---------------------------------------------------------------------

  /** The lines a record is displayed as, by status. */
  function Layout(g: Game): seq<string>
    requires Numbered(g.quarters.GetOr([]))
  {
    var status := g.status.GetOr(Unknown);
    var header := ["Game Status: " + status, g.awayTeam.GetOr(Unknown) + " vs " + g.homeTeam.GetOr(Unknown)];
    if status == "Final" then
      header + [ "Final Score: " + FinalScore(g),
                 "Start Time: " + g.dateTime.GetOr(Unknown),
                 "Channel: " + g.channel.GetOr(Unknown),
                 "Quarter Scores: " + QuarterScores(g.quarters.GetOr([])).value ]
    else if status == "InProgress" then
      header + [ "Current Score: " + FinalScore(g),
                 "Last Play: " + g.lastPlay.GetOr(NotAvailable),
                 "Channel: " + g.channel.GetOr(Unknown) ]
    else if status == "Scheduled" then
      header + [ "Start Time: " + g.dateTime.GetOr(Unknown),
                 "Channel: " + g.channel.GetOr(Unknown) ]
    else
      header + [DetailsUnavailable]
  }

  /** Whatever the field values, a formattable record's message is its
      layout's lines, each closed by a line break. */
  lemma LayoutText(g: Game)
    requires Numbered(g.quarters.GetOr([]))
    ensures FormatGame(g).value == Terminated(Layout(g))
  {
    var status := g.status.GetOr(Unknown);
    var l0 := "Game Status: " + status;
    var l1 := g.awayTeam.GetOr(Unknown) + " vs " + g.homeTeam.GetOr(Unknown);
    if status == "Final" {
      var l2 := "Final Score: " + FinalScore(g);
      var l3 := "Start Time: " + g.dateTime.GetOr(Unknown);
      var l4 := "Channel: " + g.channel.GetOr(Unknown);
      var l5 := "Quarter Scores: " + QuarterScores(g.quarters.GetOr([])).value;
      assert Layout(g) == [l0, l1, l2, l3, l4, l5];
      TerminatedSix(l0, l1, l2, l3, l4, l5);
    } else if status == "InProgress" {
      var l2 := "Current Score: " + FinalScore(g);
      var l3 := "Last Play: " + g.lastPlay.GetOr(NotAvailable);
      var l4 := "Channel: " + g.channel.GetOr(Unknown);
      assert Layout(g) == [l0, l1, l2, l3, l4];
      TerminatedFive(l0, l1, l2, l3, l4);
    } else if status == "Scheduled" {
      var l2 := "Start Time: " + g.dateTime.GetOr(Unknown);
      var l3 := "Channel: " + g.channel.GetOr(Unknown);
      assert Layout(g) == [l0, l1, l2, l3];
      TerminatedFour(l0, l1, l2, l3);
    } else {
      assert Layout(g) == [l0, l1, DetailsUnavailable];
      TerminatedThree(l0, l1, DetailsUnavailable);
    }
  }

  /** All lines of a plain record's layout are free of the line break. */
  lemma LayoutFree(g: Game)
    requires Plain(g) && Numbered(g.quarters.GetOr([]))
    ensures forall l :: l in Layout(g) ==> Free(l)
  {
    LinesFree(g);
  }

  /** Splitting a plain record's message at each line break gives back its
      layout's lines, followed by the empty text after the closing break. */
  lemma ReadMessage(g: Game)
    requires Plain(g) && Numbered(g.quarters.GetOr([]))
    ensures Split(FormatGame(g).value, LineBreak) == Layout(g) + [""]
  {
    LayoutText(g);
    LayoutFree(g);
    ReadLines(Layout(g));
  }

  /** A finished game shows, after the status and the matchup, the final score,
      the start time, the channel and the quarter line. */
  lemma FinalLines(g: Game)
    requires Plain(g) && g.status == Some("Final") && Numbered(g.quarters.GetOr([]))
    ensures Split(FormatGame(g).value, LineBreak)
         == [ "Game Status: Final",
              g.awayTeam.GetOr(Unknown) + " vs " + g.homeTeam.GetOr(Unknown),
              "Final Score: " + g.awayTeamScore.GetOr(NotAvailable) + "-" + g.homeTeamScore.GetOr(NotAvailable),
              "Start Time: " + g.dateTime.GetOr(Unknown),
              "Channel: " + g.channel.GetOr(Unknown),
              "Quarter Scores: " + QuarterScores(g.quarters.GetOr([])).value,
              "" ]
  {
    assert "Final Score: " + FinalScore(g)
        == "Final Score: " + g.awayTeamScore.GetOr(NotAvailable) + "-" + g.homeTeamScore.GetOr(NotAvailable);
    ReadMessage(g);
    assert "Game Status: " + "Final" == "Game Status: Final";
  }

  /** A game in progress shows, after the status and the matchup, the current
      score, the last play and the channel: no start time and no quarter line. */
  lemma InProgressLines(g: Game)
    requires Plain(g) && g.status == Some("InProgress") && Numbered(g.quarters.GetOr([]))
    ensures Split(FormatGame(g).value, LineBreak)
         == [ "Game Status: InProgress",
              g.awayTeam.GetOr(Unknown) + " vs " + g.homeTeam.GetOr(Unknown),
              "Current Score: " + g.awayTeamScore.GetOr(NotAvailable) + "-" + g.homeTeamScore.GetOr(NotAvailable),
              "Last Play: " + g.lastPlay.GetOr(NotAvailable),
              "Channel: " + g.channel.GetOr(Unknown),
              "" ]
  {
    assert "Current Score: " + FinalScore(g)
        == "Current Score: " + g.awayTeamScore.GetOr(NotAvailable) + "-" + g.homeTeamScore.GetOr(NotAvailable);
    ReadMessage(g);
    assert "Game Status: " + "InProgress" == "Game Status: InProgress";
  }

  /** A scheduled game shows, after the status and the matchup, the start time
      and the channel: no score line. */
  lemma ScheduledLines(g: Game)
    requires Plain(g) && g.status == Some("Scheduled") && Numbered(g.quarters.GetOr([]))
    ensures Split(FormatGame(g).value, LineBreak)
         == [ "Game Status: Scheduled",
              g.awayTeam.GetOr(Unknown) + " vs " + g.homeTeam.GetOr(Unknown),
              "Start Time: " + g.dateTime.GetOr(Unknown),
              "Channel: " + g.channel.GetOr(Unknown),
              "" ]
  {
    ReadMessage(g);
    assert "Game Status: " + "Scheduled" == "Game Status: Scheduled";
  }

  /** Any other status, "Unknown" for an absent one included, shows only the
      status, the matchup and the notice that details are unavailable. */
  lemma OtherLines(g: Game)
    requires Plain(g) && Numbered(g.quarters.GetOr([]))
    requires g.status.GetOr(Unknown) !in {"Final", "InProgress", "Scheduled"}
    ensures Split(FormatGame(g).value, LineBreak)
         == [ "Game Status: " + g.status.GetOr(Unknown),
              g.awayTeam.GetOr(Unknown) + " vs " + g.homeTeam.GetOr(Unknown),
              DetailsUnavailable,
              "" ]
  {
    ReadMessage(g);
  }

  // ---------------------------------------------------------------------
  // The frame every message shares, and the quarter line
  // ---------------------------------------------------------------------

  lemma {:induction false} TerminatedAppend(xs: seq<string>, ys: seq<string>)
    ensures Terminated(xs + ys) == Terminated(xs) + Terminated(ys)
    decreases |ys|
  {
    if |ys| == 0 {
      assert xs + ys == xs;
    } else {
      var init, last := ys[..|ys| - 1], ys[|ys| - 1];
      assert xs + ys == (xs + init) + [last];
      assert ys == init + [last];
      TerminatedSnoc(xs + init, last);
      TerminatedSnoc(init, last);
      TerminatedAppend(xs, init);
    }
  }

  /** The opening two lines of a message. */
  function Header(g: Game): string {
    ("Game Status: " + g.status.GetOr(Unknown)) + LineBreak
    + (g.awayTeam.GetOr(Unknown) + " vs " + g.homeTeam.GetOr(Unknown)) + LineBreak
  }

  /** Whatever the status, the message opens with the status line and the
      matchup line. */
  lemma MessageHeader(g: Game)
    requires Numbered(g.quarters.GetOr([]))
    ensures StartsWith(FormatGame(g).value, Header(g))
  {
    var l0 := "Game Status: " + g.status.GetOr(Unknown);
    var l1 := g.awayTeam.GetOr(Unknown) + " vs " + g.homeTeam.GetOr(Unknown);
    var lines := Layout(g);
    LayoutText(g);
    assert lines == [l0, l1] + lines[2..];
    TerminatedAppend([l0, l1], lines[2..]);
    TerminatedSnoc([], l0);
    TerminatedSnoc([l0], l1);
    assert [] + [l0] == [l0] && [l0] + [l1] == [l0, l1];
    assert Terminated([l0, l1]) == Header(g);
  }

  /** Whatever the status, the message closes with a line break. */
  lemma MessageEnd(g: Game)
    requires Numbered(g.quarters.GetOr([]))
    ensures EndsWith(FormatGame(g).value, LineBreak)
  {
    var lines := Layout(g);
    LayoutText(g);
    var m := FormatGame(g).value;
    var t := Terminated(lines[..|lines| - 1]) + lines[|lines| - 1];
    assert m == t + LineBreak;
    assert m[|m| - |LineBreak|..] == LineBreak;
  }

  /** Every message begins with "Game Status: ". */
  lemma MessageOpens(g: Game)
    requires Numbered(g.quarters.GetOr([]))
    ensures StartsWith(FormatGame(g).value, "Game Status: ")
  {
    var h := Header(g);
    MessageHeader(g);
    assert h[..|"Game Status: "|] == "Game Status: ";
    StartsWithTrans(FormatGame(g).value, h, "Game Status: ");
  }

  /** A finished game without quarters ends with an empty quarter line. */
  lemma FinalWithoutQuarters(g: Game)
    requires g.status == Some("Final") && g.quarters.GetOr([]) == []
    ensures EndsWith(FormatGame(g).value, "Quarter Scores: " + LineBreak)
  {
    var m := FormatGame(g).value;
    assert QuarterScores([]) == Success("");
    var t := ("Game Status: " + g.status.GetOr(Unknown)) + LineBreak
        + (g.awayTeam.GetOr(Unknown) + " vs " + g.homeTeam.GetOr(Unknown)) + LineBreak
        + ("Final Score: " + FinalScore(g)) + LineBreak
        + ("Start Time: " + g.dateTime.GetOr(Unknown)) + LineBreak
        + ("Channel: " + g.channel.GetOr(Unknown)) + LineBreak;
    assert m == t + ("Quarter Scores: " + "") + LineBreak;
    assert "Quarter Scores: " + "" == "Quarter Scores: ";
    assert m[|m| - |"Quarter Scores: " + LineBreak|..] == "Quarter Scores: " + LineBreak;
  }

  /** A finished game's message opens with the header and then the final
      score on a line of its own, whatever the field values. */
  lemma FinalScoreShown(g: Game)
    requires g.status == Some("Final") && Numbered(g.quarters.GetOr([]))
    ensures StartsWith(FormatGame(g).value, Header(g) + ("Final Score: " + FinalScore(g)) + LineBreak)
  {
    var p := Header(g) + ("Final Score: " + FinalScore(g)) + LineBreak;
    var q := p + ("Start Time: " + g.dateTime.GetOr(Unknown)) + LineBreak;
    var r := q + ("Channel: " + g.channel.GetOr(Unknown)) + LineBreak;
    var m := r + ("Quarter Scores: " + QuarterScores(g.quarters.GetOr([])).value) + LineBreak;
    assert FormatGame(g).value == m;
    assert StartsWith(m, r) && StartsWith(r, q) && StartsWith(q, p) by {
      assert m[..|r|] == r && r[..|q|] == q && q[..|p|] == p;
    }
    StartsWithTrans(m, r, q);
    StartsWithTrans(m, q, p);
  }

  /** A game in progress opens with the header, then the current score and the
      last play, each on a line of its own, whatever the field values. */
  lemma CurrentScoreShown(g: Game)
    requires g.status == Some("InProgress") && Numbered(g.quarters.GetOr([]))
    ensures StartsWith(FormatGame(g).value,
                       Header(g) + ("Current Score: " + FinalScore(g)) + LineBreak
                       + ("Last Play: " + g.lastPlay.GetOr(NotAvailable)) + LineBreak)
  {
    var p := Header(g) + ("Current Score: " + FinalScore(g)) + LineBreak
             + ("Last Play: " + g.lastPlay.GetOr(NotAvailable)) + LineBreak;
    var m := p + ("Channel: " + g.channel.GetOr(Unknown)) + LineBreak;
    assert FormatGame(g).value == m;
    assert m[..|p|] == p;
  }

  /** A scheduled game's message is the header, then the start time and the
      channel, each on a line of its own, and nothing else (no score line),
      whatever the field values. */
  lemma ScheduledText(g: Game)
    requires g.status == Some("Scheduled") && Numbered(g.quarters.GetOr([]))
    ensures FormatGame(g)
         == Success(Header(g) + ("Start Time: " + g.dateTime.GetOr(Unknown)) + LineBreak
                    + ("Channel: " + g.channel.GetOr(Unknown)) + LineBreak)
  {
  }

  /** One quarter's entry: its number, then the away and home scores, each
      "N/A" when absent. */
  lemma QuarterScoresSingle(q: Quarter)
    requires q.number.Some?
    ensures QuarterScores([q])
         == Success("Q" + q.number.value + ": " + q.awayScore.GetOr(NotAvailable) + "-" + q.homeScore.GetOr(NotAvailable))
  {
    assert MapResult(QuarterEntry, [q]).value == [QuarterEntry(q).value];
  }

  /** The quarter line of two runs of quarters is the two lines joined by
      ", ": entries keep the order of the quarters. */
  lemma QuarterScoresAppend(xs: seq<Quarter>, ys: seq<Quarter>)
    requires Numbered(xs) && Numbered(ys) && |xs| > 0 && |ys| > 0
    ensures QuarterScores(xs + ys) == Success(QuarterScores(xs).value + ", " + QuarterScores(ys).value)
  {
    assert Numbered(xs + ys) by {
      forall i | 0 <= i < |xs + ys| ensures (xs + ys)[i].number.Some? {
        if i >= |xs| {
          assert (xs + ys)[i] == ys[i - |xs|];
        }
      }
    }
    MapResultAppend(QuarterEntry, xs, ys);
    JoinAppend(MapResult(QuarterEntry, xs).value, MapResult(QuarterEntry, ys).value, ", ");
  }

  /** Any status other than the three known ones, the "Unknown" default
      included, yields the header and the apology line and nothing else. */
  lemma OtherText(g: Game)
    requires Numbered(g.quarters.GetOr([]))
    requires g.status.GetOr(Unknown) !in {"Final", "InProgress", "Scheduled"}
    ensures FormatGame(g) == Success(Header(g) + DetailsUnavailable + LineBreak)
  {
  }

  /** A record with no fields at all reads as an unknown game between unknown
      teams. */
  lemma EmptyRecord()
    ensures Split(FormatGame(Game(None, None, None, None, None, None, None, None, None)).value, LineBreak)
         == ["Game Status: Unknown", "Unknown vs Unknown", "Details are unavailable at the moment.", ""]
  {
    var g := Game(None, None, None, None, None, None, None, None, None);
    OtherLines(g);
    assert "Game Status: " + "Unknown" == "Game Status: Unknown";
    assert "Unknown" + " vs " + "Unknown" == "Unknown vs Unknown";
  }

  /** A scheduled game between BOS and NYK. */
  const BosAtNyk: Game := Game(Some("Scheduled"), Some("BOS"), Some("NYK"), None, None,
                               Some("2024-01-01T19:00"), Some("ESPN"), None, None)

  lemma BosAtNykPlain()
    ensures Plain(BosAtNyk)
  {
    FreeByFirst("Scheduled", LineBreak);
    FreeByFirst("BOS", LineBreak);
    FreeByFirst("NYK", LineBreak);
    FreeByFirst("2024-01-01T19:00", LineBreak);
    FreeByFirst("ESPN", LineBreak);
  }

  /** Its lines are the status, the matchup, the start time and the channel,
      and there is no score. */
  lemma ScheduledExample()
    ensures Split(FormatGame(BosAtNyk).value, LineBreak)
         == ["Game Status: Scheduled", "BOS vs NYK", "Start Time: 2024-01-01T19:00", "Channel: ESPN", ""]
  {
    BosAtNykPlain();
    ScheduledLines(BosAtNyk);
    assert "BOS" + " vs " + "NYK" == "BOS vs NYK";
    assert "Start Time: " + "2024-01-01T19:00" == "Start Time: 2024-01-01T19:00";
    assert "Channel: " + "ESPN" == "Channel: ESPN";
  }
}
