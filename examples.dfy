/** Worked examples of both routes' formatters, computed on the model. */
module Examples {
  import opened Wrappers
  import opened Text
  import TwitterRoute
  import opened VideosRoute

  /** "999", "1.5K", "2.3M". */
  lemma TwitterViewsExamples()
    ensures TwitterRoute.FormatViews(999) == "999"
    ensures TwitterRoute.FormatViews(1500) == "1.5K"
    ensures TwitterRoute.FormatViews(2300000) == "2.3M"
  {
  }

  /** 65 seconds are "1:05". */
  lemma TwitterDurationPadsSeconds()
    ensures TwitterRoute.FormatDuration(65000) == "1:05"
  {
    TwitterRoute.FormatDurationSingleDigitSeconds(65000, 1, 5);
  }

  /** There is no hours field: an hour is "60:00". */
  lemma TwitterDurationHasNoHours()
    ensures TwitterRoute.FormatDuration(3600000) == "60:00"
  {
    TwitterRoute.FormatDurationSingleDigitSeconds(3600000, 60, 0);
    assert NatToString(60) == "60";
  }

  lemma HoursComponent()
    ensures Component("1H2M3S", 'H') == ("1", "2M3S")
  {
    assert "1H2M3S" == "1" + ("H" + "2M3S");
    ComponentOf("1", 'H', "2M3S");
  }

  lemma MinutesComponent()
    ensures Component("2M3S", 'M') == ("2", "3S")
  {
    assert "2M3S" == "2" + ("M" + "3S");
    ComponentOf("2", 'M', "3S");
  }

  lemma SecondsComponent()
    ensures Component("3S", 'S') == ("3", "")
  {
    assert "3S" == "3" + ("S" + "");
    ComponentOf("3", 'S', "");
  }

  lemma MatchWithHours()
    ensures MatchDuration("PT1H2M3S") == Some(DurationMatch("1", "2", "3"))
  {
    var d := "PT1H2M3S";
    assert FindPT(d, 0) == Some(0);
    assert d[2..] == "1H2M3S";
    HoursComponent();
    MinutesComponent();
    SecondsComponent();
  }

  /** Once the groups are known, the text is their fields joined with ':'. */
  lemma TextOfMatch(duration: string, m: DurationMatch)
    requires MatchDuration(duration) == Some(m)
    ensures DurationText(duration) == Join(DurationFields(m), ':')
  {
  }

  lemma FieldsWithHours()
    ensures DurationFields(DurationMatch("1", "2", "3")) == ["1", "2", "03"]
  {
    assert PadStart("3", 2, '0') == "03";
  }

  /** With an hours group there are three fields, and the minutes are not padded. */
  lemma DurationTextWithHours()
    ensures DurationText("PT1H2M3S") == "1:2:03"
  {
    MatchWithHours();
    TextOfMatch("PT1H2M3S", DurationMatch("1", "2", "3"));
    FieldsWithHours();
    JoinWithHours();
  }

  lemma JoinWithHours()
    ensures Join(["1", "2", "03"], ':') == "1:2:03"
  {
    assert Join(["03"], ':') == "03";
    assert Join(["2", "03"], ':') == "2:03";
  }

  lemma MatchMinutesOnly()
    ensures MatchDuration("PT5M") == Some(DurationMatch("", "5", ""))
  {
    var d := "PT5M";
    assert FindPT(d, 0) == Some(0);
    assert d[2..] == "5M";
    DigitRunOf("5", "M");
    assert Component("5M", 'H') == ("", "5M");
    assert "5M" == "5" + ("M" + "");
    ComponentOf("5", 'M', "");
  }

  /** Absent seconds are "00". */
  lemma DurationTextMinutesOnly()
    ensures DurationText("PT5M") == "5:00"
  {
    MatchMinutesOnly();
    TextOfMatch("PT5M", DurationMatch("", "5", ""));
    assert PadStart("", 2, '0') == "00";
    assert DurationFields(DurationMatch("", "5", "")) == ["5", "00"];
    assert Join(["00"], ':') == "00";
  }

  lemma MatchSecondsOnly()
    ensures MatchDuration("PT45S") == Some(DurationMatch("", "", "45"))
  {
    var d := "PT45S";
    assert FindPT(d, 0) == Some(0);
    assert d[2..] == "45S";
    DigitRunOf("45", "S");
    assert Component("45S", 'H') == ("", "45S");
    assert Component("45S", 'M') == ("", "45S");
    assert "45S" == "45" + ("S" + "");
    ComponentOf("45", 'S', "");
  }

  /** Absent minutes are "0". */
  lemma DurationTextSecondsOnly()
    ensures DurationText("PT45S") == "0:45"
  {
    MatchSecondsOnly();
    TextOfMatch("PT45S", DurationMatch("", "", "45"));
    assert DurationFields(DurationMatch("", "", "45")) == ["0", "45"];
    assert Join(["45"], ':') == "45";
  }

  lemma MatchNoGroups()
    ensures MatchDuration("PT") == Some(DurationMatch("", "", ""))
  {
    assert FindPT("PT", 0) == Some(0);
    assert "PT"[2..] == "";
  }

  /** "PT" alone matches with every group absent. */
  lemma DurationTextNoGroups()
    ensures DurationText("PT") == "0:00"
  {
    MatchNoGroups();
    TextOfMatch("PT", DurationMatch("", "", ""));
    assert PadStart("", 2, '0') == "00";
    assert DurationFields(DurationMatch("", "", "")) == ["0", "00"];
    assert Join(["00"], ':') == "00";
  }

  lemma MatchLongSeconds()
    ensures MatchDuration("PT120S") == Some(DurationMatch("", "", "120"))
  {
    var d := "PT120S";
    assert FindPT(d, 0) == Some(0);
    assert d[2..] == "120" + "S" + "";
    DigitRunOf("120", "S");
    ComponentOf("120", 'S', "");
  }

  /** Seconds are never cut or carried into minutes. */
  lemma DurationTextLongSeconds()
    ensures DurationText("PT120S") == "0:120"
  {
    MatchLongSeconds();
    assert DurationFields(DurationMatch("", "", "120")) == ["0", "120"];
  }

  lemma MatchUnanchored()
    ensures MatchDuration("P5MPT7S") == Some(DurationMatch("", "", "7"))
  {
    var d := "P5MPT7S";
    assert !PTAt(d, 0) && !PTAt(d, 1) && !PTAt(d, 2) && PTAt(d, 3);
    assert FindPT(d, 0) == Some(3);
    assert d[5..] == "7" + "S" + "";
    DigitRunOf("7", "S");
    ComponentOf("7", 'S', "");
  }

  /** The pattern is not anchored: it is read at the first "PT", wherever that is. */
  lemma DurationTextUnanchored()
    ensures DurationText("P5MPT7S") == "0:07"
  {
    MatchUnanchored();
    assert PadStart("7", 2, '0') == "07";
    assert DurationFields(DurationMatch("", "", "7")) == ["0", "07"];
  }
}
