/** `generate_statistics`: one pass over all leaders that increments keyed
    counters (by category, party, gender, education tier and promise
    category), sums project counts and averages the attendance ratios. The
    statistics are returned instead of written to `statistics.json`. */
module Statistics {
  import opened Text
  import opened Collect
  import opened Records

  datatype Gender = Male | Female | UnknownGender

  /** The gender guess from the name prefix and the position text. */
  function GenderOf(name: string, position: string): Gender {
    if StartsWith(name, "Ms.") || StartsWith(name, "Mrs.") || Contains(Lower(position), "women") then Female
    else if StartsWith(name, "Mr.") || StartsWith(name, "Hon.") then Male
    else UnknownGender
  }

  /** `{"male": 0, "female": 0, "unknown": 0}` */
  datatype GenderCounts = GenderCounts(male: nat, female: nat, unknown: nat)

  function Tally(g: GenderCounts, x: Gender): GenderCounts {
    match x
    case Male => g.(male := g.male + 1)
    case Female => g.(female := g.female + 1)
    case UnknownGender => g.(unknown := g.unknown + 1)
  }

  /** The education tier of one entry: the first tier, from the highest,
      whose keyword occurs in the lower-cased entry. */
  function DegreeTier(edu: string): string {
    var e := Lower(edu);
    if Contains(e, "phd") || Contains(e, "doctorate") then "PhD"
    else if Contains(e, "master") then "Masters"
    else if Contains(e, "bachelor") || Contains(e, "degree") then "Bachelors"
    else if Contains(e, "diploma") then "Diploma"
    else if Contains(e, "certificate") then "Certificate"
    else "unknown"
  }

  /** The ratio `present / total` of one attendance record, when it has
      both keys and a positive total. */
  function RecordRatio(a: Attendance): Option<real> {
    if a.present.Some? && a.total.Some? && a.total.value > 0
    then Some(a.present.value as real / a.total.value as real)
    else None
  }

  // ---- the counted keys, in loop order ----

  function CategoryKeys(ls: seq<Leader>): (r: seq<string>)
    ensures |r| == |ls|
    decreases |ls|
  {
    if |ls| == 0 then [] else CategoryKeys(ls[..|ls| - 1]) + [ls[|ls| - 1].category]
  }

  /** `leader.get('party', 'unknown')` */
  function PartyKeys(ls: seq<Leader>): (r: seq<string>)
    ensures |r| == |ls|
    decreases |ls|
  {
    if |ls| == 0 then [] else PartyKeys(ls[..|ls| - 1]) + [ls[|ls| - 1].party.GetOr("unknown")]
  }

  function Tiers(edus: seq<string>): (r: seq<string>)
    ensures |r| == |edus|
    decreases |edus|
  {
    if |edus| == 0 then [] else Tiers(edus[..|edus| - 1]) + [DegreeTier(edus[|edus| - 1])]
  }

  function EducationKeys(ls: seq<Leader>): seq<string>
    decreases |ls|
  {
    if |ls| == 0 then [] else EducationKeys(ls[..|ls| - 1]) + Tiers(ls[|ls| - 1].education.GetOr([]))
  }

  /** `promise.get('category', 'Other')`; the category key is always set. */
  function PromiseCategories(ps: seq<Promise>): (r: seq<string>)
    ensures |r| == |ps|
    decreases |ps|
  {
    if |ps| == 0 then [] else PromiseCategories(ps[..|ps| - 1]) + [ps[|ps| - 1].category]
  }

  function PromiseKeys(ls: seq<Leader>): seq<string>
    decreases |ls|
  {
    if |ls| == 0 then [] else PromiseKeys(ls[..|ls| - 1]) + PromiseCategories(ls[|ls| - 1].promises.GetOr([]))
  }

  function GenderTally(ls: seq<Leader>): GenderCounts
    decreases |ls|
  {
    if |ls| == 0 then GenderCounts(0, 0, 0) else Tally(GenderTally(ls[..|ls| - 1]), GenderOf(ls[|ls| - 1].name, ls[|ls| - 1].position))
  }

  // ---- attendance ----

  /** `leader_attendance`: the sum of the ratios of the counted records. */
  function RatioSum(as_: seq<Attendance>): real
    decreases |as_|
  {
    if |as_| == 0 then 0.0
    else RatioSum(as_[..|as_| - 1]) + RecordRatio(as_[|as_| - 1]).GetOr(0.0)
  }

  /** `total_sessions`: the number of counted records. */
  function RatioCount(as_: seq<Attendance>): nat
    decreases |as_|
  {
    if |as_| == 0 then 0
    else RatioCount(as_[..|as_| - 1]) + (if RecordRatio(as_[|as_| - 1]).Some? then 1 else 0)
  }

  /** One leader's mean attendance in percent, when any record counts. */
  function LeaderAttendance(l: Leader): Option<real> {
    if l.attendance.Some? && |l.attendance.value| > 0 && RatioCount(l.attendance.value) > 0
    then Some(RatioSum(l.attendance.value) / RatioCount(l.attendance.value) as real * 100.0)
    else None
  }

  function AttendanceTotal(ls: seq<Leader>): real
    decreases |ls|
  {
    if |ls| == 0 then 0.0 else AttendanceTotal(ls[..|ls| - 1]) + LeaderAttendance(ls[|ls| - 1]).GetOr(0.0)
  }

  function AttendanceLeaders(ls: seq<Leader>): nat
    decreases |ls|
  {
    if |ls| == 0 then 0
    else AttendanceLeaders(ls[..|ls| - 1]) + (if LeaderAttendance(ls[|ls| - 1]).Some? then 1 else 0)
  }

  /** `len(leader['projects'])` summed. */
  function ProjectsTotal(ls: seq<Leader>): nat
    decreases |ls|
  {
    if |ls| == 0 then 0 else ProjectsTotal(ls[..|ls| - 1]) + ls[|ls| - 1].projects.GetOr(0)
  }

  /** The mean of the leader averages before rounding; 0 without any. */
  function Average(total: real, n: nat): real {
    if n > 0 then total / n as real else 0.0
  }

  // ---- the loop state and the result ----

  /** The counters the loop updates. */
  datatype Tallies = Tallies(
    byCategory: Counter,
    byParty: Counter,
    byGender: GenderCounts,
    educationLevels: Counter,
    totalAttendance: real,
    leadersWithAttendance: nat,
    projectsTotal: nat,
    promisesByCategory: Counter)

  /** The counters after the loop over `ls`. */
  function TalliesOf(ls: seq<Leader>): Tallies
    decreases |ls|
  {
    if |ls| == 0 then Tallies([], [], GenderCounts(0, 0, 0), [], 0.0, 0, 0, [])
    else AddLeader(TalliesOf(ls[..|ls| - 1]), ls[|ls| - 1])
  }

  /** The counters described key by key: each counter counts the keys the
      leaders contribute, in order. */
  function KeyedTallies(ls: seq<Leader>): Tallies {
    Tallies(IncAll([], CategoryKeys(ls)), IncAll([], PartyKeys(ls)), GenderTally(ls),
            IncAll([], EducationKeys(ls)), AttendanceTotal(ls), AttendanceLeaders(ls),
            ProjectsTotal(ls), IncAll([], PromiseKeys(ls)))
  }

  datatype Stats = Stats(
    totalLeaders: nat,
    byCategory: Counter,
    byParty: Counter,
    byGender: GenderCounts,
    educationLevels: Counter,
    attendanceAverage: real,
    projectsTotal: nat,
    promisesByCategory: Counter)

  function StatsOf(ls: seq<Leader>): Stats {
    var t := KeyedTallies(ls);
    Stats(|ls|, t.byCategory, t.byParty, t.byGender, t.educationLevels,
          Average(t.totalAttendance, t.leadersWithAttendance), t.projectsTotal, t.promisesByCategory)
  }

  // ---- the loops ----

  /** The education loop of one leader. */
  method CountEducation(levels: Counter, education: seq<string>) returns (r: Counter)
    ensures r == IncAll(levels, Tiers(education))
  {
    r := levels;
    var j := 0;
    while j < |education|
      invariant 0 <= j <= |education|
      invariant r == IncAll(levels, Tiers(education[..j]))
    {
      assert education[..j + 1] == education[..j] + [education[j]];
      var degreeType := DegreeTier(education[j]);
      assert Tiers(education[..j + 1]) == Tiers(education[..j]) + [degreeType];
      IncAllSnoc(levels, Tiers(education[..j]), degreeType);
      r := Inc(r, degreeType);
      j := j + 1;
    }
    assert education[..j] == education;
  }

  /** The promise loop of one leader. */
  method CountPromises(byCategory: Counter, promises: seq<Promise>) returns (r: Counter)
    ensures r == IncAll(byCategory, PromiseCategories(promises))
  {
    r := byCategory;
    var j := 0;
    while j < |promises|
      invariant 0 <= j <= |promises|
      invariant r == IncAll(byCategory, PromiseCategories(promises[..j]))
    {
      assert promises[..j + 1] == promises[..j] + [promises[j]];
      assert PromiseCategories(promises[..j + 1]) == PromiseCategories(promises[..j]) + [promises[j].category];
      IncAllSnoc(byCategory, PromiseCategories(promises[..j]), promises[j].category);
      r := Inc(r, promises[j].category);
      j := j + 1;
    }
    assert promises[..j] == promises;
  }

  /** The attendance loop of one leader. */
  method SumRatios(records: seq<Attendance>) returns (leaderAttendance: real, totalSessions: nat)
    ensures leaderAttendance == RatioSum(records) && totalSessions == RatioCount(records)
  {
    leaderAttendance, totalSessions := 0.0, 0;
    var j := 0;
    while j < |records|
      invariant 0 <= j <= |records|
      invariant leaderAttendance == RatioSum(records[..j]) && totalSessions == RatioCount(records[..j])
    {
      assert records[..j + 1][..j] == records[..j];
      var record := records[j];
      if record.present.Some? && record.total.Some? && record.total.value > 0 {
        leaderAttendance := leaderAttendance + record.present.value as real / record.total.value as real;
        totalSessions := totalSessions + 1;
      }
      j := j + 1;
    }
    assert records[..j] == records;
  }

  /** The loop body for one leader. */
  function AddLeader(t: Tallies, l: Leader): Tallies {
    var g := GenderOf(l.name, l.position);
    var att := LeaderAttendance(l);
    Tallies(Inc(t.byCategory, l.category), Inc(t.byParty, l.party.GetOr("unknown")), Tally(t.byGender, g),
            IncAll(t.educationLevels, Tiers(l.education.GetOr([]))),
            t.totalAttendance + att.GetOr(0.0), t.leadersWithAttendance + (if att.Some? then 1 else 0),
            t.projectsTotal + l.projects.GetOr(0),
            IncAll(t.promisesByCategory, PromiseCategories(l.promises.GetOr([]))))
  }

  /** The gender branch of the loop body. */
  method GenderStep(g: GenderCounts, name: string, position: string) returns (r: GenderCounts)
    ensures r == Tally(g, GenderOf(name, position))
  {
    if StartsWith(name, "Ms.") || StartsWith(name, "Mrs.") || Contains(Lower(position), "women") {
      r := g.(female := g.female + 1);
    } else if StartsWith(name, "Mr.") || StartsWith(name, "Hon.") {
      r := g.(male := g.male + 1);
    } else {
      r := g.(unknown := g.unknown + 1);
    }
  }

  /** The attendance branch of the loop body. */
  method AttendanceStep(total: real, count: nat, leader: Leader) returns (total': real, count': nat)
    ensures total' == total + LeaderAttendance(leader).GetOr(0.0)
    ensures count' == count + (if LeaderAttendance(leader).Some? then 1 else 0)
  {
    total', count' := total, count;
    if leader.attendance.Some? && |leader.attendance.value| > 0 {
      var leaderAttendance, totalSessions := SumRatios(leader.attendance.value);
      if totalSessions > 0 {
        total' := total' + (leaderAttendance / totalSessions as real) * 100.0;
        count' := count' + 1;
      }
    }
  }

  /** The education branch of the loop body. */
  method EducationStep(levels: Counter, leader: Leader) returns (r: Counter)
    ensures r == IncAll(levels, Tiers(leader.education.GetOr([])))
  {
    r := levels;
    if leader.education.Some? {
      r := CountEducation(r, leader.education.value);
    } else {
      assert Tiers([]) == [];
    }
  }

  /** The promise branch of the loop body. */
  method PromiseCategoryStep(byCategory: Counter, leader: Leader) returns (r: Counter)
    ensures r == IncAll(byCategory, PromiseCategories(leader.promises.GetOr([])))
  {
    r := byCategory;
    if leader.promises.Some? {
      r := CountPromises(r, leader.promises.value);
    } else {
      assert PromiseCategories([]) == [];
    }
  }

  /** The loop body for one leader, as a method. */
  method AddLeaderStep(t: Tallies, leader: Leader) returns (r: Tallies)
    ensures r == AddLeader(t, leader)
  {
    var byCategory := Inc(t.byCategory, leader.category);
    var byParty := Inc(t.byParty, leader.party.GetOr("unknown"));
    var byGender := GenderStep(t.byGender, leader.name, leader.position);
    var educationLevels := EducationStep(t.educationLevels, leader);
    var totalAttendance, leadersWithAttendance := AttendanceStep(t.totalAttendance, t.leadersWithAttendance, leader);
    var projectsTotal := t.projectsTotal;
    if leader.projects.Some? {
      projectsTotal := projectsTotal + leader.projects.value;
    }
    var promisesByCategory := PromiseCategoryStep(t.promisesByCategory, leader);
    r := Tallies(byCategory, byParty, byGender, educationLevels, totalAttendance, leadersWithAttendance,
                 projectsTotal, promisesByCategory);
  }

  /** One more leader adds its keys at the end of each key sequence. */
  lemma KeyedTalliesLast(ls: seq<Leader>)
    requires |ls| > 0
    ensures KeyedTallies(ls) == AddLeader(KeyedTallies(ls[..|ls| - 1]), ls[|ls| - 1])
  {
    var init, l := ls[..|ls| - 1], ls[|ls| - 1];
    IncAllAppend([], EducationKeys(init), Tiers(l.education.GetOr([])));
    IncAllAppend([], PromiseKeys(init), PromiseCategories(l.promises.GetOr([])));
  }

  /** The loop's counters are the key-by-key counters. */
  lemma {:induction false} TalliesSpec(ls: seq<Leader>)
    ensures TalliesOf(ls) == KeyedTallies(ls)
    decreases |ls|
  {
    if |ls| > 0 {
      TalliesSpec(ls[..|ls| - 1]);
      KeyedTalliesLast(ls);
    }
  }

  /** `generate_statistics(all_leaders)` */
  method GenerateStatistics(allLeaders: seq<Leader>) returns (stats: Stats)
    ensures stats == StatsOf(allLeaders)
  {
    var t := Tallies([], [], GenderCounts(0, 0, 0), [], 0.0, 0, 0, []);
    var i := 0;
    while i < |allLeaders|
      invariant 0 <= i <= |allLeaders|
      invariant t == TalliesOf(allLeaders[..i])
    {
      assert allLeaders[..i + 1][..i] == allLeaders[..i];
      t := AddLeaderStep(t, allLeaders[i]);
      i := i + 1;
    }
    assert allLeaders[..i] == allLeaders;
    TalliesSpec(allLeaders);
    var attendanceAverage := 0.0;
    if t.leadersWithAttendance > 0 {
      attendanceAverage := t.totalAttendance / t.leadersWithAttendance as real;
    }
    stats := Stats(|allLeaders|, t.byCategory, t.byParty, t.byGender, t.educationLevels,
                   attendanceAverage, t.projectsTotal, t.promisesByCategory);
  }

  // ---- what the statistics mean ----

  /** The number of education entries over all leaders. */
  function EducationCount(ls: seq<Leader>): nat
    decreases |ls|
  {
    if |ls| == 0 then 0 else EducationCount(ls[..|ls| - 1]) + |ls[|ls| - 1].education.GetOr([])|
  }

  /** The number of promises over all leaders. */
  function PromiseCount(ls: seq<Leader>): nat
    decreases |ls|
  {
    if |ls| == 0 then 0 else PromiseCount(ls[..|ls| - 1]) + |ls[|ls| - 1].promises.GetOr([])|
  }

  lemma {:induction false} KeyCounts(ls: seq<Leader>)
    ensures |EducationKeys(ls)| == EducationCount(ls)
    ensures |PromiseKeys(ls)| == PromiseCount(ls)
    ensures var g := GenderTally(ls); g.male + g.female + g.unknown == |ls|
    decreases |ls|
  {
    if |ls| > 0 {
      KeyCounts(ls[..|ls| - 1]);
    }
  }

  /** Every leader is counted once by category, once by party and once by
      gender; every education entry once by tier; every promise once by
      category. */
  lemma StatisticsTotals(ls: seq<Leader>)
    ensures var s := StatsOf(ls);
      s.totalLeaders == |ls| &&
      Total(s.byCategory) == |ls| &&
      Total(s.byParty) == |ls| &&
      s.byGender.male + s.byGender.female + s.byGender.unknown == |ls| &&
      Total(s.educationLevels) == EducationCount(ls) &&
      Total(s.promisesByCategory) == PromiseCount(ls)
  {
    var s := StatsOf(ls);
    StatsCounters(ls);
    KeyCounts(ls);
    CountedTotal(CategoryKeys(ls));
    assert Total(s.byCategory) == |ls|;
    CountedTotal(PartyKeys(ls));
    assert Total(s.byParty) == |ls|;
    CountedTotal(EducationKeys(ls));
    assert Total(s.educationLevels) == EducationCount(ls);
    CountedTotal(PromiseKeys(ls));
    assert Total(s.promisesByCategory) == PromiseCount(ls);
  }

  /** A counter built from nothing counts every key once. */
  lemma CountedTotal(ks: seq<string>)
    ensures Total(IncAll([], ks)) == |ks|
  {
    IncAllTotal([], ks);
  }

  /** The counters of the statistics are the counters of the leaders' keys. */
  lemma StatsCounters(ls: seq<Leader>)
    ensures var s := StatsOf(ls);
      s.totalLeaders == |ls| &&
      s.byCategory == IncAll([], CategoryKeys(ls)) &&
      s.byParty == IncAll([], PartyKeys(ls)) &&
      s.byGender == GenderTally(ls) &&
      s.educationLevels == IncAll([], EducationKeys(ls)) &&
      s.promisesByCategory == IncAll([], PromiseKeys(ls))
  {
  }

  /** The count of a party is the number of leaders with that party
      ("unknown" for those without one), and likewise for categories. */
  lemma StatisticsCounts(ls: seq<Leader>, key: string)
    ensures Get(StatsOf(ls).byParty, key) == multiset(PartyKeys(ls))[key]
    ensures Get(StatsOf(ls).byCategory, key) == multiset(CategoryKeys(ls))[key]
    ensures Get(StatsOf(ls).promisesByCategory, key) == multiset(PromiseKeys(ls))[key]
  {
    StatsCounters(ls);
    IncAllGet([], PartyKeys(ls), key);
    IncAllGet([], CategoryKeys(ls), key);
    IncAllGet([], PromiseKeys(ls), key);
  }

  /** A position mentioning women makes the guess female whatever the
      name's title, and "Hon." counts as male only otherwise. */
  lemma GenderOrder(name: string, position: string)
    ensures Contains(Lower(position), "women") ==> GenderOf(name, position) == Female
    ensures GenderOf(name, position) == Male <==>
      !StartsWith(name, "Ms.") && !StartsWith(name, "Mrs.") && !Contains(Lower(position), "women") &&
      (StartsWith(name, "Mr.") || StartsWith(name, "Hon."))
  {
  }

  /** The tiers are tried from the highest: an entry mentioning both a PhD
      and a master's degree counts as PhD; every entry gets one of six tiers. */
  lemma DegreeTierOrder(edu: string)
    ensures Contains(Lower(edu), "phd") ==> DegreeTier(edu) == "PhD"
    ensures DegreeTier(edu) == "Masters" ==> Contains(Lower(edu), "master")
    ensures DegreeTier(edu) in ["PhD", "Masters", "Bachelors", "Diploma", "Certificate", "unknown"]
  {
  }

  /** Attendance records as the detail parser builds them: the total, when
      present, is at least the present count. */
  predicate PresentWithinTotal(a: Attendance) {
    a.present.Some? && a.total.Some? ==> a.present.value <= a.total.value
  }

  lemma RatioWithinOne(p: nat, t: nat)
    requires 0 < t && p <= t
    ensures 0.0 <= p as real / t as real <= 1.0
  {
    var q := p as real / t as real;
    assert q * t as real == p as real;
  }

  lemma {:induction false} RatioSumBounds(as_: seq<Attendance>)
    requires forall k :: 0 <= k < |as_| ==> PresentWithinTotal(as_[k])
    ensures 0.0 <= RatioSum(as_) <= RatioCount(as_) as real
    decreases |as_|
  {
    if |as_| > 0 {
      var a := as_[|as_| - 1];
      RatioSumBounds(as_[..|as_| - 1]);
      if RecordRatio(a).Some? {
        RatioWithinOne(a.present.value, a.total.value);
      }
    }
  }

  lemma LeaderAttendanceBounds(l: Leader)
    requires l.attendance.Some? ==> forall k :: 0 <= k < |l.attendance.value| ==> PresentWithinTotal(l.attendance.value[k])
    ensures LeaderAttendance(l).Some? ==> 0.0 <= LeaderAttendance(l).value <= 100.0
  {
    if LeaderAttendance(l).Some? {
      var as_ := l.attendance.value;
      RatioSumBounds(as_);
      var s, n := RatioSum(as_), RatioCount(as_) as real;
      var q := s / n;
      assert q * n == s;
      assert 0.0 <= q <= 1.0;
    }
  }

  lemma {:induction false} AttendanceTotalBounds(ls: seq<Leader>)
    requires forall i :: 0 <= i < |ls| ==> ls[i].attendance.Some? ==>
               forall k :: 0 <= k < |ls[i].attendance.value| ==> PresentWithinTotal(ls[i].attendance.value[k])
    ensures 0.0 <= AttendanceTotal(ls) <= 100.0 * AttendanceLeaders(ls) as real
    decreases |ls|
  {
    if |ls| > 0 {
      AttendanceTotalBounds(ls[..|ls| - 1]);
      LeaderAttendanceBounds(ls[|ls| - 1]);
    }
  }

  lemma AverageBounds(t: real, n: nat)
    requires 0.0 <= t <= 100.0 * n as real
    ensures 0.0 <= Average(t, n) <= 100.0
  {
    if n > 0 {
      var q := t / n as real;
      assert q * n as real == t;
    }
  }

  /** With attendance records whose present count never exceeds their total
      (as the detail parser guarantees), the average attendance is a
      percentage. */
  lemma AttendanceAverageIsPercentage(ls: seq<Leader>)
    requires forall i :: 0 <= i < |ls| ==> ls[i].attendance.Some? ==>
               forall k :: 0 <= k < |ls[i].attendance.value| ==> PresentWithinTotal(ls[i].attendance.value[k])
    ensures 0.0 <= StatsOf(ls).attendanceAverage <= 100.0
  {
    AttendanceTotalBounds(ls);
    AverageBounds(AttendanceTotal(ls), AttendanceLeaders(ls));
    assert StatsOf(ls).attendanceAverage == Average(AttendanceTotal(ls), AttendanceLeaders(ls));
  }
}
