/** `parse_politician_detail_page` step by step: the loops that append to
    the education, position, promise, attendance and committee lists, and
    the copy of `basic_info` whose keys are assigned one after another.
    Each method is proved to compute the function of the same rule in
    Detail. */
module DetailParse {
  import opened Text
  import opened Records
  import opened Classifier
  import opened Detail

  method ParseEducation(texts: seq<string>) returns (education: seq<string>)
    ensures education == EducationOf(texts)
  {
    education := [];
    var i := 0;
    while i < |texts|
      invariant 0 <= i <= |texts|
      invariant education == EducationOf(texts[..i])
    {
      assert texts[..i + 1][..i] == texts[..i];
      var educationText := Strip(texts[i]);
      if educationText != "" && |educationText| > 5 {
        education := education + [educationText];
      }
      i := i + 1;
    }
    assert texts[..i] == texts;
  }

  /** One position entry: skipped when its title is blank. */
  method ParsePosition(entry: PositionEntry) returns (p: Option<Position>)
    ensures p == PositionOf(entry)
  {
    var titleText := Strip(entry.titleText);
    if titleText == "" {
      return None;
    }
    var organization: Option<string> := None;
    if entry.orgText.Some? {
      organization := Some(Strip(entry.orgText.value));
    }
    var date: Option<string> := None;
    if entry.dateText.Some? {
      var dateText := Strip(entry.dateText.value);
      if dateText != "" {
        date := Some(dateText);
      }
    }
    p := Some(Position(titleText, organization, date));
  }

  method ParsePositions(entries: seq<PositionEntry>) returns (positions: seq<Position>)
    ensures positions == PositionsOf(entries)
  {
    positions := [];
    var i := 0;
    while i < |entries|
      invariant 0 <= i <= |entries|
      invariant positions == PositionsOf(entries[..i])
    {
      assert entries[..i + 1][..i] == entries[..i];
      var position := ParsePosition(entries[i]);
      if position.Some? {
        positions := positions + [position.value];
      }
      i := i + 1;
    }
    assert entries[..i] == entries;
  }

  /** `if re.match(...): year, month, day = date_text.split('-')` and the
      due date built from the three parts. */
  method DueDateFor(dateText: string) returns (r: DueOutcome)
    ensures r == DueDateOf(dateText)
  {
    if !IsoDatePrefix(dateText) {
      return NoDue;
    }
    var parts := Split(dateText, '-');
    if |parts| != 3 {
      return TooManyParts;
    }
    IsoDateSplit(dateText);
    var dueYear := ParseDigits(parts[0]) + 3;
    r := Due(ShowNat(dueYear) + "-" + parts[1] + "-" + parts[2]);
  }

  /** One statement of the loop, given how many promises were kept. */
  method ParseStatement(kept: nat, st: StatementNode) returns (r: Attempt<Option<Promise>>)
    ensures r == PromiseStep(kept, st)
  {
    if st.text.None? {
      return Parsed(None);
    }
    var promiseText := Strip(st.text.value);
    if promiseText == "" {
      return Parsed(None);
    }
    var madeDate: Option<string> := None;
    var dueDate: Option<string> := None;
    if st.dateText.Some? {
      var dateText := Strip(st.dateText.value);
      if dateText != "" {
        madeDate := Some(dateText);
        var due := DueDateFor(dateText);
        if due.TooManyParts? {
          return Raised;
        }
        if due.Due? {
          dueDate := Some(due.date);
        }
      }
    }
    r := Parsed(Some(Promise(PromiseId(kept + 1), promiseText, CategorizePromise(promiseText),
                             madeDate, dueDate, InProgress)));
  }

  /** The statement loop; the unpacking error ends it, and the whole parse. */
  method ParsePromises(statements: seq<StatementNode>) returns (r: Attempt<seq<Promise>>)
    ensures r == PromisesOf(statements)
  {
    var promises: seq<Promise> := [];
    var i := 0;
    while i < |statements|
      invariant 0 <= i <= |statements|
      invariant PromisesOf(statements[..i]) == Parsed(promises)
    {
      assert statements[..i + 1][..i] == statements[..i];
      var step := ParseStatement(|promises|, statements[i]);
      if step.Raised? {
        PromisesRaisedPrefix(statements, i + 1);
        return Raised;
      }
      if step.value.Some? {
        promises := promises + [step.value.value];
      }
      i := i + 1;
    }
    assert statements[..i] == statements;
    r := Parsed(promises);
  }

  method ParseAttendance(rows: seq<AttendanceRow>) returns (attendance: seq<Attendance>)
    ensures attendance == AttendanceOf(rows)
  {
    attendance := [];
    var i := 0;
    while i < |rows|
      invariant 0 <= i <= |rows|
      invariant attendance == AttendanceOf(rows[..i])
    {
      assert rows[..i + 1][..i] == rows[..i];
      var row := rows[i];
      ghost var step := AttendanceRecordOf(row);
      assert AttendanceOf(rows[..i + 1]) == AttendanceOf(rows[..i]) + (if step.Some? then [step.value] else []);
      if !row.hasHeader && row.periodText.Some? {
        var periodText := Strip(row.periodText.value);
        if periodText != "" {
          var present := NumberIn(row.presentText);
          var absent := NumberIn(row.absentText);
          var total: Option<nat> := None;
          if present.Some? && absent.Some? {
            total := Some(present.value + absent.value);
          }
          assert step == Some(Attendance(periodText, present, absent, total));
          attendance := attendance + [Attendance(periodText, present, absent, total)];
        }
      }
      i := i + 1;
    }
    assert rows[..i] == rows;
  }

  method ParseCommittees(texts: seq<string>) returns (committees: seq<string>)
    ensures committees == CommitteesOf(texts)
  {
    committees := [];
    var i := 0;
    while i < |texts|
      invariant 0 <= i <= |texts|
      invariant committees == CommitteesOf(texts[..i])
    {
      assert texts[..i + 1][..i] == texts[..i];
      var committeeText := Strip(texts[i]);
      if committeeText != "" {
        committees := committees + [committeeText];
      }
      i := i + 1;
    }
    assert texts[..i] == texts;
  }

  /** The two sums behind the approval rating. */
  method SumAttendance(attendance: seq<Attendance>) returns (present: nat, sessions: nat)
    ensures present == SumPresent(attendance) && sessions == SumTotal(attendance)
  {
    present, sessions := 0, 0;
    var i := 0;
    while i < |attendance|
      invariant 0 <= i <= |attendance|
      invariant present == SumPresent(attendance[..i]) && sessions == SumTotal(attendance[..i])
    {
      assert attendance[..i + 1][..i] == attendance[..i];
      present := present + attendance[i].present.GetOr(0);
      sessions := sessions + attendance[i].total.GetOr(0);
      i := i + 1;
    }
    assert attendance[..i] == attendance;
  }

  /** `for promise in promises[:5]: achievements.append(promise['description'])` */
  method KeyAchievements(promises: seq<Promise>) returns (achievements: seq<string>)
    ensures |achievements| == Min(5, |promises|)
    ensures forall i :: 0 <= i < |achievements| ==> achievements[i] == promises[i].description
  {
    var firstFive := promises[..Min(5, |promises|)];
    achievements := [];
    var i := 0;
    while i < |firstFive|
      invariant 0 <= i <= |firstFive|
      invariant |achievements| == i
      invariant forall k :: 0 <= k < i ==> achievements[k] == firstFive[k].description
    {
      achievements := achievements + [firstFive[i].description];
      i := i + 1;
    }
  }

  /** The keys assigned before the experience section. */
  method AssignHead(basic: Leader, p: DetailPage) returns (data: Leader)
    ensures data == HeadFields(basic, p)
  {
    data := basic.(id := Some(ProfileId(basic.profileUrl)));
    var party := PartyOf(p.partyText);
    if party.Some? { data := data.(party := party); }
    var county := CountyOf(p.locationText);
    if county.Some? { data := data.(county := county); }
    var election := ElectionOf(p.election);
    if election.Some? { data := data.(election := election); }
    var contact := ContactOf(p.contact);
    if contact.Some? { data := data.(contact := contact); }
  }

  /** The promises, attendance and committees keys. */
  method AssignLists(record: Leader, promises: seq<Promise>, p: DetailPage) returns (data: Leader)
    ensures data == ListFields(record, promises, p)
  {
    data := record;
    if |promises| > 0 { data := data.(promises := Some(promises)); }
    if p.attendance.Some? {
      var attendance := ParseAttendance(p.attendance.value);
      if |attendance| > 0 { data := data.(attendance := Some(attendance)); }
    }
    if p.committees.Some? {
      var committees := ParseCommittees(p.committees.value);
      if |committees| > 0 { data := data.(committees := Some(committees)); }
    }
  }

  /** The rating and the achievements, derived from the record's own keys. */
  method AssignDerived(record: Leader) returns (data: Leader)
    ensures data == DerivedFields(record)
  {
    data := record;
    if data.attendance.Some? && |data.attendance.value| > 0 {
      var present, sessions := SumAttendance(data.attendance.value);
      if sessions > 0 { data := data.(approvalRating := Some(Ratio(present, sessions))); }
    }
    if data.promises.Some? && |data.promises.value| > 0 {
      var achievements := KeyAchievements(data.promises.value);
      assert achievements == Descriptions(data.promises.value[..Min(5, |data.promises.value|)]);
      if |achievements| > 0 { data := data.(keyAchievements := Some(achievements)); }
    }
  }

  /** The whole parse: the candidate itself when the HTML is falsy; otherwise a
      copy updated key by key, which stops at the first error. */
  method ParseDetailPage(basic: Leader, page: Option<DetailPage>) returns (data: Leader)
    ensures data == DetailRecord(basic, page)
  {
    if page.None? {
      return basic;
    }
    var p := page.value;
    data := AssignHead(basic, p);
    match p.experience {
      case ExperienceList =>
        return;
      case NoExperience =>
      case ExperienceSection(educationTexts, positionEntries) =>
        var education := ParseEducation(educationTexts);
        if |education| > 0 { data := data.(education := Some(education)); }
        var positions := ParsePositions(positionEntries);
        if |positions| > 0 { data := data.(positions := Some(positions)); }
    }
    var promises := ParsePromises(p.statements);
    if promises.Raised? {
      return;
    }
    data := AssignLists(data, promises.value, p);
    data := AssignDerived(data);
  }
}
