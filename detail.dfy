/** The field rules of `parse_politician_detail_page`, applied to the text
    the selectors extract. Each list the source builds by appending in a
    loop is specified by a function here and built by a method in
    DetailParse; the record is `basic_info.copy()` with keys assigned in
    source order, and two tuple-unpacking and attribute errors abort the
    rest of the parse, which the source catches. */
module Detail {
  import opened Text
  import opened Records
  import opened Classifier

  /** `d[k] = v` when a value was found, otherwise whatever was there. */
  function Override<T>(found: Option<T>, prior: Option<T>): (r: Option<T>)
    ensures found.Some? ==> r == found
    ensures found.None? ==> r == prior
  {
    if found.Some? then found else prior
  }

  /** A list key is only assigned when the list is not empty. */
  function NonEmpty<T>(xs: seq<T>): (r: Option<seq<T>>)
    ensures r.Some? <==> |xs| > 0
    ensures r.Some? ==> r.value == xs
  {
    if |xs| > 0 then Some(xs) else None
  }

  // ---------------------------------------------------------------- id

  /** `profile_url.strip('/').split('/')[-1]` */
  function ProfileId(url: string): (r: string)
    ensures '/' !in r
  {
    var trimmed := TrimBoth(url, {'/'});
    var parts := Split(trimmed, '/');
    SplitPiecesFree(trimmed, '/', |parts| - 1);
    parts[|parts| - 1]
  }

  function Slashes(k: nat): (r: string)
    ensures |r| == k && forall i :: 0 <= i < k ==> r[i] == '/'
  {
    seq(k, i => '/')
  }

  /** A profile URL `prefix/segment`, with any number of trailing slashes,
      has the segment as its id. */
  lemma ProfileIdOfUrl(prefix: string, seg: string, k: nat)
    requires |prefix| > 0 && prefix[0] != '/'
    requires |seg| > 0 && '/' !in seg
    ensures ProfileId(prefix + "/" + seg + Slashes(k)) == seg
  {
    var core := prefix + ['/'] + seg;
    assert core[|core| - 1] == seg[|seg| - 1] && seg[|seg| - 1] in seg;
    TrimSlashesAfter(core, k);
    assert core[0] == prefix[0];
    TrimmedCore(prefix + "/" + seg + Slashes(k), core);
    SplitLast(prefix, '/', seg);
  }

  lemma TrimmedCore(url: string, core: string)
    requires TrimRight(url, {'/'}) == core
    requires |core| > 0 && core[0] != '/'
    ensures TrimBoth(url, {'/'}) == core
  {
  }

  /** Stripping trailing slashes gives back text that does not end in one. */
  lemma {:induction false} TrimSlashesAfter(core: string, k: nat)
    requires |core| > 0 && core[|core| - 1] != '/'
    ensures TrimRight(core + Slashes(k), {'/'}) == core
    decreases k
  {
    var url := core + Slashes(k);
    if k > 0 {
      assert url[|url| - 1] == '/';
      assert url[..|url| - 1] == core + Slashes(k - 1);
      TrimSlashesAfter(core, k - 1);
    } else {
      assert url == core;
    }
  }

  // ---------------------------------------------------------------- party

  /** `[\w\s\-]` */
  predicate IsPartyChar(c: char) { IsWordChar(c) || c in Whitespace || c == '-' }

  /** The greedy run `[\w\s\-]+` matches. */
  function PartyRun(s: string): (r: string)
    ensures |r| <= |s| && r == s[..|r|]
    ensures forall i :: 0 <= i < |r| ==> IsPartyChar(r[i])
    ensures |r| == |s| || !IsPartyChar(s[|r|])
    decreases |s|
  {
    if |s| > 0 && IsPartyChar(s[0]) then [s[0]] + PartyRun(s[1..]) else []
  }

  const MemberOf: string := "Member of "

  /** The group of `re.search(r'Member of ([\w\s\-]+)', s)`: the leftmost
      "Member of " followed by at least one group character. */
  function SearchMemberOf(s: string): (r: Option<string>)
    ensures r.Some? ==> |r.value| > 0 && forall i :: 0 <= i < |r.value| ==> IsPartyChar(r.value[i])
    decreases |s|
  {
    if |s| <= |MemberOf| then None
    else if s[..|MemberOf|] == MemberOf && IsPartyChar(s[|MemberOf|]) then Some(PartyRun(s[|MemberOf|..]))
    else SearchMemberOf(s[1..])
  }

  /** "Member of " at index `i`, followed by a group character. */
  predicate PhraseAt(s: string, i: nat) {
    i + |MemberOf| < |s| && s[i..i + |MemberOf|] == MemberOf && IsPartyChar(s[i + |MemberOf|])
  }

  /** The search succeeds exactly when the phrase followed by a group
      character occurs somewhere. */
  lemma {:induction false} SearchMemberOfFinds(s: string)
    ensures SearchMemberOf(s).Some? <==> exists i: nat :: PhraseAt(s, i)
    decreases |s|
  {
    var n := |MemberOf|;
    if |s| <= n {
    } else if s[..n] == MemberOf && IsPartyChar(s[n]) {
      assert s[0..n] == s[..n];
      assert PhraseAt(s, 0);
    } else {
      assert s[0..n] == s[..n];
      SearchMemberOfFinds(s[1..]);
      if SearchMemberOf(s[1..]).Some? {
        var i: nat :| PhraseAt(s[1..], i);
        assert s[i + 1..i + 1 + n] == s[1..][i..i + n];
        assert PhraseAt(s, i + 1);
      }
      if exists i: nat :: PhraseAt(s, i) {
        var i: nat :| PhraseAt(s, i);
        assert i > 0;
        assert s[1..][i - 1..i - 1 + n] == s[i..i + n];
        assert PhraseAt(s[1..], i - 1);
      }
    }
  }

  /** "Member of <party>" yields the party name when it is all group characters. */
  lemma MemberOfParty(p: string)
    requires |p| > 0 && forall i :: 0 <= i < |p| ==> IsPartyChar(p[i])
    ensures SearchMemberOf(MemberOf + p) == Some(p)
  {
    var s := MemberOf + p;
    assert s[..|MemberOf|] == MemberOf;
    assert s[|MemberOf|..] == p;
    assert s[|MemberOf|] == p[0];
    var r := PartyRun(p);
    assert |r| == |p|;
    assert r == p;
  }

  /** The `party` key: the stripped group, when the search succeeds. */
  function PartyOf(text: Option<string>): Option<string> {
    if text.None? then None
    else
      match SearchMemberOf(Strip(text.value))
      case None => None
      case Some(g) => Some(Strip(g))
  }

  // ---------------------------------------------------------------- county

  /** The `county` key: when the stripped location text contains "County",
      every occurrence is removed in one left-to-right pass and the rest
      is stripped. */
  function CountyOf(text: Option<string>): (r: Option<string>)
    ensures r.Some? <==> text.Some? && Contains(Strip(text.value), "County")
    ensures r.Some? ==> |r.value| + |"County"| <= |Strip(text.value)|
  {
    if text.None? then None
    else
      var t := Strip(text.value);
      if Contains(t, "County") then Some(Strip(RemoveAll(t, "County"))) else None
  }

  lemma {:induction false} RemoveCountySuffix(a: string)
    requires 'C' !in a
    ensures RemoveAll(a + " County", "County") == a + " "
    decreases |a|
  {
    var s := a + " County";
    if |a| == 0 {
      assert s[1..] == "County";
      assert "County"[6..] == "";
    } else {
      assert s[..6][0] == a[0];
      assert s[1..] == a[1..] + " County";
      RemoveCountySuffix(a[1..]);
    }
  }

  /** "<name> County" gives the name, for a name that has no 'C' and no
      surrounding whitespace (such as "Nairobi" or "Homa Bay"). */
  lemma CountyOfName(a: string)
    requires |a| > 0 && 'C' !in a && a[0] !in Whitespace && a[|a| - 1] !in Whitespace
    ensures CountyOf(Some(a + " County")) == Some(a)
  {
    var t := a + " County";
    assert TrimRight(t, Whitespace) == t;
    assert TrimLeft(t, Whitespace) == t;
    assert t[|a| + 1..|a| + 1 + 6] == "County";
    ContainsAt(t, "County", |a| + 1);
    RemoveCountySuffix(a);
    var u := a + " ";
    assert u[..|u| - 1] == a;
    assert TrimRight(u, Whitespace) == a;
    assert TrimLeft(a, Whitespace) == a;
  }

  // ---------------------------------------------------------------- election, contact

  function StripOpt(t: Option<string>): (r: Option<string>)
    ensures r.Some? <==> t.Some?
  {
    if t.Some? then Some(Strip(t.value)) else None
  }

  /** `int(re.search(r'\d+', text.strip()).group())`, when there is a match. */
  function NumberIn(t: Option<string>): (r: Option<nat>)
    ensures r.Some? <==> t.Some? && exists i :: 0 <= i < |Strip(t.value)| && IsDigit(Strip(t.value)[i])
  {
    if t.Some? then FirstNumber(Strip(t.value)) else None
  }

  /** The number is the value of the first run of digits in the stripped text. */
  lemma NumberInValue(t: Option<string>, a: string, d: string, b: string)
    requires t.Some? && Strip(t.value) == a + d + b
    requires forall i :: 0 <= i < |a| ==> !IsDigit(a[i])
    requires |d| > 0 && AllDigits(d) && (b == [] || !IsDigit(b[0]))
    ensures NumberIn(t) == Some(ParseDigits(d))
  {
    FirstNumberValue(a, d, b);
  }

  /** The present and absent counts of a kept attendance row are the
      first runs of digits in their stripped texts. */
  lemma AttendanceCountValue(row: AttendanceRow, a: string, d: string, b: string)
    requires !row.hasHeader && row.periodText.Some? && Strip(row.periodText.value) != ""
    requires row.presentText.Some? && Strip(row.presentText.value) == a + d + b
    requires forall i :: 0 <= i < |a| ==> !IsDigit(a[i])
    requires |d| > 0 && AllDigits(d) && (b == [] || !IsDigit(b[0]))
    ensures AttendanceRecordOf(row).Some? && AttendanceRecordOf(row).value.present == Some(ParseDigits(d))
  {
    NumberInValue(row.presentText, a, d, b);
  }

  /** The `election` key: set only when the dictionary is not empty. */
  function ElectionOf(node: Option<ElectionNode>): (r: Option<Election>)
    ensures r.Some? <==> node.Some? && (node.value.dateText.Some? || NumberIn(node.value.votesText).Some?)
  {
    if node.None? then None
    else
      var date := StripOpt(node.value.dateText);
      var votes := NumberIn(node.value.votesText);
      if date.None? && votes.None? then None else Some(Election(date, votes))
  }

  /** `href.replace(prefix, '').strip()` */
  function HrefValue(href: string, scheme: string): string
    requires |scheme| > 0
  {
    Strip(RemoveAll(href, scheme))
  }

  function PhoneNumbers(hrefs: seq<string>): (r: seq<string>)
    ensures |r| == |hrefs|
  {
    seq(|hrefs|, i requires 0 <= i < |hrefs| => HrefValue(hrefs[i], "tel:"))
  }

  function SocialMediaOf(node: ContactNode): (r: Option<SocialMedia>)
    ensures r.Some? <==> node.twitterHref.Some? || node.facebookHref.Some?
  {
    var tw := StripOpt(node.twitterHref);
    var fb := StripOpt(node.facebookHref);
    if tw.None? && fb.None? then None else Some(SocialMedia(tw, fb))
  }

  /** The `contact` key: set only when one of its parts was found. */
  function ContactOf(node: Option<ContactNode>): (r: Option<Contact>)
    ensures r.Some? <==> (node.Some? &&
      (node.value.mailtoHref.Some? || |node.value.telHrefs| > 0 || node.value.addressText.Some? ||
       node.value.twitterHref.Some? || node.value.facebookHref.Some?))
  {
    if node.None? then None
    else
      var n := node.value;
      var email := if n.mailtoHref.Some? then Some(HrefValue(n.mailtoHref.value, "mailto:")) else None;
      var phone := if |n.telHrefs| > 0 then Some(PhoneNumbers(n.telHrefs)) else None;
      var office := StripOpt(n.addressText);
      var social := SocialMediaOf(n);
      if email.None? && phone.None? && office.None? && social.None? then None
      else Some(Contact(email, phone, office, social))
  }

  // ---------------------------------------------------------------- experience

  /** The kept education texts: stripped, and longer than five characters. */
  function EducationOf(texts: seq<string>): seq<string>
    decreases |texts|
  {
    if |texts| == 0 then []
    else
      var t := Strip(texts[|texts| - 1]);
      EducationOf(texts[..|texts| - 1]) + (if |t| > 5 then [t] else [])
  }

  /** Every text, stripped. */
  function StrippedAll(texts: seq<string>): (r: seq<string>)
    ensures |r| == |texts|
    decreases |texts|
  {
    if |texts| == 0 then [] else StrippedAll(texts[..|texts| - 1]) + [Strip(texts[|texts| - 1])]
  }

  lemma {:induction false} StrippedAllPointwise(texts: seq<string>, k: nat)
    requires k < |texts|
    ensures StrippedAll(texts)[k] == Strip(texts[k])
    decreases |texts|
  {
    var init := texts[..|texts| - 1];
    assert StrippedAll(texts) == StrippedAll(init) + [Strip(texts[|texts| - 1])];
    if k < |texts| - 1 {
      StrippedAllPointwise(init, k);
      assert texts[k] == init[k];
    }
  }

  /** Every kept entry is longer than five characters and is the stripped
      text of an entry; every such stripped text is kept. */
  lemma {:induction false} EducationOfKeeps(texts: seq<string>, x: string)
    ensures x in EducationOf(texts) <==> |x| > 5 && x in StrippedAll(texts)
    decreases |texts|
  {
    if |texts| > 0 {
      var init := texts[..|texts| - 1];
      var t := Strip(texts[|texts| - 1]);
      var tail := if |t| > 5 then [t] else [];
      assert EducationOf(texts) == EducationOf(init) + tail;
      assert StrippedAll(texts) == StrippedAll(init) + [t];
      EducationOfKeeps(init, x);
      assert x in EducationOf(texts) <==> x in EducationOf(init) || x in tail;
      assert x in StrippedAll(texts) <==> x in StrippedAll(init) || x == t;
    }
  }

  /** A position entry: skipped when its title is blank; the date is kept
      only when it is not blank. */
  function PositionOf(e: PositionEntry): Option<Position> {
    var title := Strip(e.titleText);
    if title == "" then None
    else
      var date := if e.dateText.Some? && Strip(e.dateText.value) != "" then Some(Strip(e.dateText.value)) else None;
      Some(Position(title, StripOpt(e.orgText), date))
  }

  function PositionsOf(es: seq<PositionEntry>): seq<Position>
    decreases |es|
  {
    if |es| == 0 then []
    else
      var p := PositionOf(es[|es| - 1]);
      PositionsOf(es[..|es| - 1]) + (if p.Some? then [p.value] else [])
  }

  /** No kept position has a blank title or a blank date. */
  lemma {:induction false} PositionsOfTitled(es: seq<PositionEntry>)
    ensures forall p :: p in PositionsOf(es) ==>
              p.title != "" && (p.date.Some? ==> p.date.value != "")
    ensures |PositionsOf(es)| <= |es|
    decreases |es|
  {
    if |es| > 0 {
      PositionsOfTitled(es[..|es| - 1]);
    }
  }

  /** The number of entries whose stripped title is not blank. */
  function TitledCount(es: seq<PositionEntry>): nat
    decreases |es|
  {
    if |es| == 0 then 0 else TitledCount(es[..|es| - 1]) + (if Strip(es[|es| - 1].titleText) != "" then 1 else 0)
  }

  /** Some entry yields position `p`. */
  predicate YieldsPosition(es: seq<PositionEntry>, p: Position) {
    exists k :: 0 <= k < |es| && PositionOf(es[k]) == Some(p)
  }

  /** Every entry with a non-blank title gives a position and no other
      entry does: the kept positions are exactly the entries' positions. */
  lemma {:induction false} PositionsOfMembers(es: seq<PositionEntry>, p: Position)
    ensures p in PositionsOf(es) <==> YieldsPosition(es, p)
    decreases |es|
  {
    if |es| > 0 {
      var init := es[..|es| - 1];
      var q := PositionOf(es[|es| - 1]);
      PositionsOfMembers(init, p);
      assert PositionsOf(es) == PositionsOf(init) + (if q.Some? then [q.value] else []);
      ExistsSnoc(es, init, e => PositionOf(e) == Some(p));
    }
  }

  /** One position per entry with a non-blank title. */
  lemma {:induction false} PositionsOfCount(es: seq<PositionEntry>)
    ensures |PositionsOf(es)| == TitledCount(es)
    decreases |es|
  {
    if |es| > 0 {
      PositionsOfCount(es[..|es| - 1]);
    }
  }

  /** The experience section, or the AttributeError that `.select` on a list raises. */
  function ExperienceOf(node: ExperienceNode): Attempt<(seq<string>, seq<Position>)> {
    match node
    case NoExperience => Parsed(([], []))
    case ExperienceSection(edu, pos) => Parsed((EducationOf(edu), PositionsOf(pos)))
    case ExperienceList => Raised
  }

  // ---------------------------------------------------------------- promises

  /** `re.match(r'\d{4}-\d{2}-\d{2}', d)`: anchored at the start only. */
  predicate IsoDatePrefix(d: string) {
    |d| >= 10 && IsDigit(d[0]) && IsDigit(d[1]) && IsDigit(d[2]) && IsDigit(d[3]) && d[4] == '-'
    && IsDigit(d[5]) && IsDigit(d[6]) && d[7] == '-' && IsDigit(d[8]) && IsDigit(d[9])
  }

  /** What the due-date step does with a made date: no match, a due date,
      or the ValueError of `year, month, day = d.split('-')`. */
  datatype DueOutcome = NoDue | Due(date: string) | TooManyParts

  lemma IsoDateSplit(d: string)
    requires IsoDatePrefix(d)
    ensures Split(d, '-') == [d[..4], d[5..7]] + Split(d[8..], '-')
    ensures AllDigits(d[..4])
  {
    assert d == d[..4] + ['-'] + d[5..];
    SplitAfter(d[..4], '-', d[5..]);
    assert d[5..] == d[5..7] + ['-'] + d[8..];
    SplitAfter(d[5..7], '-', d[8..]);
  }

  function DueDateOf(d: string): DueOutcome {
    if !IsoDatePrefix(d) then NoDue
    else
      var parts := Split(d, '-');
      if |parts| != 3 then TooManyParts
      else
        IsoDateSplit(d);
        Due(ShowNat(ParseDigits(parts[0]) + 3) + "-" + parts[1] + "-" + parts[2])
  }

  /** A made date on which the unpacking raises: the ISO pattern matches
      and another '-' follows the day. */
  predicate DateRaises(d: string) { IsoDatePrefix(d) && '-' in d[8..] }

  /** The due date exists exactly for dates that begin with the ISO pattern
      and have no further '-'; its year is int(year) + 3, and month and day
      (with whatever follows the day) are copied. */
  lemma DueDateSpec(d: string)
    ensures DueDateOf(d).NoDue? <==> !IsoDatePrefix(d)
    ensures DueDateOf(d).TooManyParts? <==> DateRaises(d)
    ensures DueDateOf(d).Due? ==>
              DueDateOf(d).date == ShowNat(ParseDigits(d[..4]) + 3) + "-" + d[5..7] + "-" + d[8..]
  {
    if IsoDatePrefix(d) {
      IsoDateSplit(d);
      if '-' in d[8..] {
        SplitHasMore(d[8..], '-');
      } else {
        SplitWithout(d[8..], '-');
      }
    }
  }

  /** "2021-05-10" is due on "2024-05-10". */
  lemma DueDateThreeYearsLater(d: string)
    requires d == "2021-05-10"
    ensures DueDateOf(d) == Due("2024-05-10")
  {
    assert d[..4] == "2021";
    assert d[5..7] == "05";
    assert d[8..] == "10";
    DigitsOf2021();
    DueDateSpec(d);
    assert ShowNat(2024) + "-" + "05" + "-" + "10" == "2024-05-10";
  }

  lemma DigitsOf2021()
    ensures ParseDigits("2021") == 2021 && ShowNat(2024) == "2024"
  {
    assert "2021"[..3] == "202" && "202"[..2] == "20" && "20"[..1] == "2" && "2"[..0] == "";
    assert ShowNat(2) == "2";
    assert ShowNat(20) == ShowNat(2) + "0";
    assert ShowNat(202) == ShowNat(20) + "2";
    assert ShowNat(2024) == ShowNat(202) + "4";
  }

  /** The year goes through int(), so leading zeros are lost. */
  lemma DueDateDropsLeadingZeros(d: string)
    requires d == "0021-05-10"
    ensures DueDateOf(d) == Due("24-05-10")
  {
    assert d[..4] == "0021";
    assert d[5..7] == "05";
    assert d[8..] == "10";
    DigitsOf0021();
    DueDateSpec(d);
    assert ShowNat(24) + "-" + "05" + "-" + "10" == "24-05-10";
  }

  lemma DigitsOf0021()
    ensures ParseDigits("0021") == 21 && ShowNat(24) == "24"
  {
    assert "0021"[..3] == "002" && "002"[..2] == "00" && "00"[..1] == "0" && "0"[..0] == "";
    assert ParseDigits("0") == 0;
    assert ParseDigits("00") == 0;
    assert ParseDigits("002") == 2;
    assert ShowNat(2) == "2";
    assert ShowNat(24) == ShowNat(2) + "4";
  }

  /** A date in another format gets no due date, and one with a further
      '-' after the day makes the unpacking raise. */
  lemma DueDateOtherFormats()
    ensures DueDateOf("10 May 2021") == NoDue
    ensures DueDateOf("2021-05-10-extra") == TooManyParts
  {
    DueDateSpec("10 May 2021");
    DueDateSpec("2021-05-10-extra");
    assert "2021-05-10-extra"[8..][2] == '-';
  }

  const InProgress: string := "in-progress"

  /** `f"pr{n}"` */
  function PromiseId(n: nat): string { "pr" + ShowNat(n) }

  /** One statement, given how many promises were kept before it: skipped
      (no text, or blank text), a promise, or the unpacking error. */
  function PromiseStep(kept: nat, st: StatementNode): Attempt<Option<Promise>> {
    if st.text.None? then Parsed(None)
    else
      var text := Strip(st.text.value);
      if text == "" then Parsed(None)
      else
        var made := if st.dateText.Some? && Strip(st.dateText.value) != "" then Some(Strip(st.dateText.value)) else None;
        var due := if made.Some? then DueDateOf(made.value) else NoDue;
        if due.TooManyParts? then Raised
        else
          Parsed(Some(Promise(PromiseId(kept + 1), text, CategorizePromise(text), made,
                              if due.Due? then Some(due.date) else None, InProgress)))
  }

  /** The promise list, or the error that aborts the rest of the parse. */
  function PromisesOf(sts: seq<StatementNode>): Attempt<seq<Promise>>
    decreases |sts|
  {
    if |sts| == 0 then Parsed([])
    else
      match PromisesOf(sts[..|sts| - 1])
      case Raised => Raised
      case Parsed(ps) =>
        match PromiseStep(|ps|, sts[|sts| - 1])
        case Raised => Raised
        case Parsed(None) => Parsed(ps)
        case Parsed(Some(p)) => Parsed(ps + [p])
  }

  /** A statement that keeps a promise: it has non-blank text. */
  predicate HasText(st: StatementNode) { st.text.Some? && Strip(st.text.value) != "" }

  /** A statement whose made date makes the unpacking raise. */
  predicate RaisesUnpack(st: StatementNode) {
    HasText(st) && st.dateText.Some? && DateRaises(Strip(st.dateText.value))
  }

  function TextCount(sts: seq<StatementNode>): nat
    decreases |sts|
  {
    if |sts| == 0 then 0 else TextCount(sts[..|sts| - 1]) + (if HasText(sts[|sts| - 1]) then 1 else 0)
  }

  /** Some statement's made date makes the unpacking raise. */
  predicate AnyRaises(sts: seq<StatementNode>) {
    exists j :: 0 <= j < |sts| && RaisesUnpack(sts[j])
  }

  lemma PromiseStepCases(kept: nat, st: StatementNode)
    ensures PromiseStep(kept, st).Raised? <==> RaisesUnpack(st)
    ensures PromiseStep(kept, st).Parsed? ==> (PromiseStep(kept, st).value.Some? <==> HasText(st))
  {
    if HasText(st) && st.dateText.Some? && Strip(st.dateText.value) != "" {
      var d := Strip(st.dateText.value);
      DueDateSpec(d);
      assert PromiseStep(kept, st).Raised? <==> DueDateOf(d).TooManyParts?;
    }
  }

  /** The parse raises exactly when some statement with text has a made
      date that begins with the ISO pattern and holds a further '-'. */
  lemma {:induction false} PromisesRaiseIff(sts: seq<StatementNode>)
    ensures PromisesOf(sts).Raised? <==> AnyRaises(sts)
    decreases |sts|
  {
    if |sts| > 0 {
      var init := sts[..|sts| - 1];
      PromisesRaiseIff(init);
      AnyRaisesSnoc(sts);
      if PromisesOf(init).Parsed? {
        PromisesRaiseLast(sts);
      }
    }
  }

  /** A statement list has a raising statement iff its prefix has one or
      its last statement raises. */
  lemma AnyRaisesSnoc(sts: seq<StatementNode>)
    requires |sts| > 0
    ensures AnyRaises(sts) <==> AnyRaises(sts[..|sts| - 1]) || RaisesUnpack(sts[|sts| - 1])
  {
    ExistsSnoc(sts, sts[..|sts| - 1], RaisesUnpack);
  }

  /** A sequence has an element satisfying `p` iff its prefix `init` has
      one or its last element satisfies `p`. */
  lemma ExistsSnoc<T>(s: seq<T>, init: seq<T>, p: T -> bool)
    requires |s| > 0 && init == s[..|s| - 1]
    ensures (exists j :: 0 <= j < |s| && p(s[j])) <==>
            (exists j :: 0 <= j < |init| && p(init[j])) || p(s[|s| - 1])
  {
    if exists j :: 0 <= j < |s| && p(s[j]) {
      var j :| 0 <= j < |s| && p(s[j]);
      if j < |s| - 1 {
        assert init[j] == s[j];
      }
    }
    if exists j :: 0 <= j < |s| - 1 && p(init[j]) {
      var j :| 0 <= j < |s| - 1 && p(init[j]);
      assert init[j] == s[j];
    }
  }

  /** After a prefix that parsed, the last statement decides. */
  lemma PromisesRaiseLast(sts: seq<StatementNode>)
    requires |sts| > 0 && PromisesOf(sts[..|sts| - 1]).Parsed?
    ensures PromisesOf(sts).Raised? <==> RaisesUnpack(sts[|sts| - 1])
  {
    PromiseStepCases(|PromisesOf(sts[..|sts| - 1]).value|, sts[|sts| - 1]);
  }

  /** The promise ids, status, description and category every kept promise has. */
  predicate WellNumbered(ps: seq<Promise>) {
    forall i :: 0 <= i < |ps| ==>
      ps[i].id == PromiseId(i + 1) && ps[i].status == InProgress &&
      ps[i].description != "" && ps[i].category == CategorizePromise(ps[i].description)
  }

  /** Kept promises are numbered pr1 .. prN without gaps, N being the number
      of statements with text; each is "in-progress" and has its non-blank
      text as description and the classifier's category. */
  lemma {:induction false} PromisesNumbered(sts: seq<StatementNode>)
    ensures PromisesOf(sts).Parsed? ==>
              |PromisesOf(sts).value| == TextCount(sts) && WellNumbered(PromisesOf(sts).value)
    decreases |sts|
  {
    if |sts| > 0 {
      var init := sts[..|sts| - 1];
      var last := sts[|sts| - 1];
      PromisesNumbered(init);
      if PromisesOf(init).Parsed? {
        var ps := PromisesOf(init).value;
        PromiseStepCases(|ps|, last);
        var step := PromiseStep(|ps|, last);
        if step.Parsed? && step.value.Some? {
          var p := step.value.value;
          assert PromisesOf(sts) == Parsed(ps + [p]);
          assert p.id == PromiseId(|ps| + 1);
        }
      }
    }
  }

  /** Once a prefix has raised, the whole list has. */
  lemma {:induction false} PromisesRaisedPrefix(sts: seq<StatementNode>, i: nat)
    requires i <= |sts| && PromisesOf(sts[..i]).Raised?
    ensures PromisesOf(sts).Raised?
    decreases |sts|
  {
    if i < |sts| {
      var init := sts[..|sts| - 1];
      assert init[..i] == sts[..i];
      PromisesRaisedPrefix(init, i);
    } else {
      assert sts[..i] == sts;
    }
  }

  // ---------------------------------------------------------------- attendance

  /** One attendance row: header rows and rows without a non-blank period
      are skipped; `total` is set only when both counts were read. */
  function AttendanceRecordOf(row: AttendanceRow): Option<Attendance> {
    if row.hasHeader || row.periodText.None? then None
    else
      var period := Strip(row.periodText.value);
      if period == "" then None
      else
        var present := NumberIn(row.presentText);
        var absent := NumberIn(row.absentText);
        Some(Attendance(period, present, absent,
                        if present.Some? && absent.Some? then Some(present.value + absent.value) else None))
  }

  function AttendanceOf(rows: seq<AttendanceRow>): seq<Attendance>
    decreases |rows|
  {
    if |rows| == 0 then []
    else
      var a := AttendanceRecordOf(rows[|rows| - 1]);
      AttendanceOf(rows[..|rows| - 1]) + (if a.Some? then [a.value] else [])
  }

  /** A record well formed as the parser makes it. */
  predicate TotalConsistent(a: Attendance) {
    (a.total.Some? <==> a.present.Some? && a.absent.Some?) &&
    (a.total.Some? ==> a.total.value == a.present.value + a.absent.value)
  }

  /** One parsed row: a non-blank period, and a total exactly when both
      counts were read, equal to their sum. */
  lemma AttendanceRecordConsistent(row: AttendanceRow)
    ensures var a := AttendanceRecordOf(row);
      (a.Some? ==> TotalConsistent(a.value) && a.value.period != "") && (row.hasHeader ==> a.None?)
  {
  }

  /** Every parsed record has a total exactly when it has both counts, and
      then the total is their sum; no record comes from a header row. */
  lemma {:induction false} AttendanceOfConsistent(rows: seq<AttendanceRow>)
    ensures forall a :: a in AttendanceOf(rows) ==> TotalConsistent(a) && a.period != ""
    ensures |AttendanceOf(rows)| <= |rows|
    ensures (forall j :: 0 <= j < |rows| ==> rows[j].hasHeader) ==> AttendanceOf(rows) == []
    decreases |rows|
  {
    if |rows| > 0 {
      var init := rows[..|rows| - 1];
      AttendanceOfConsistent(init);
      AttendanceRecordConsistent(rows[|rows| - 1]);
      if forall j :: 0 <= j < |rows| ==> rows[j].hasHeader {
        assert forall j :: 0 <= j < |init| ==> init[j].hasHeader by {
          forall j | 0 <= j < |init| ensures init[j].hasHeader {
            assert init[j] == rows[j];
          }
        }
      }
    }
  }

  /** The number of rows that give a record: not a header, with a
      non-blank period. */
  function KeptRows(rows: seq<AttendanceRow>): nat
    decreases |rows|
  {
    if |rows| == 0 then 0 else KeptRows(rows[..|rows| - 1]) + (if AttendanceRecordOf(rows[|rows| - 1]).Some? then 1 else 0)
  }

  /** Some row is parsed into record `a`. */
  predicate YieldsAttendance(rows: seq<AttendanceRow>, a: Attendance) {
    exists j :: 0 <= j < |rows| && AttendanceRecordOf(rows[j]) == Some(a)
  }

  /** The kept records are exactly the rows' records. */
  lemma {:induction false} AttendanceOfMembers(rows: seq<AttendanceRow>, a: Attendance)
    ensures a in AttendanceOf(rows) <==> YieldsAttendance(rows, a)
    decreases |rows|
  {
    if |rows| > 0 {
      var init := rows[..|rows| - 1];
      var r := AttendanceRecordOf(rows[|rows| - 1]);
      AttendanceOfMembers(init, a);
      assert AttendanceOf(rows) == AttendanceOf(init) + (if r.Some? then [r.value] else []);
      ExistsSnoc(rows, init, row => AttendanceRecordOf(row) == Some(a));
    }
  }

  /** One record per row that is not a header and has a non-blank period. */
  lemma {:induction false} AttendanceOfCount(rows: seq<AttendanceRow>)
    ensures |AttendanceOf(rows)| == KeptRows(rows)
    decreases |rows|
  {
    if |rows| > 0 {
      AttendanceOfCount(rows[..|rows| - 1]);
    }
  }

  // ---------------------------------------------------------------- committees

  function CommitteesOf(texts: seq<string>): seq<string>
    decreases |texts|
  {
    if |texts| == 0 then []
    else
      var t := Strip(texts[|texts| - 1]);
      CommitteesOf(texts[..|texts| - 1]) + (if t != "" then [t] else [])
  }

  /** A committee is kept iff it is the non-blank stripped text of an entry. */
  lemma {:induction false} CommitteesOfKeeps(texts: seq<string>, c: string)
    ensures c in CommitteesOf(texts) <==> c != "" && c in StrippedAll(texts)
    decreases |texts|
  {
    if |texts| > 0 {
      var init := texts[..|texts| - 1];
      var t := Strip(texts[|texts| - 1]);
      var tail := if t != "" then [t] else [];
      assert CommitteesOf(texts) == CommitteesOf(init) + tail;
      assert StrippedAll(texts) == StrippedAll(init) + [t];
      CommitteesOfKeeps(init, c);
      assert c in CommitteesOf(texts) <==> c in CommitteesOf(init) || c in tail;
      assert c in StrippedAll(texts) <==> c in StrippedAll(init) || c == t;
    }
  }

  // ---------------------------------------------------------------- rating and achievements

  /** `sum(record.get('present', 0) for record in attendance)` */
  function SumPresent(att: seq<Attendance>): nat
    decreases |att|
  {
    if |att| == 0 then 0 else SumPresent(att[..|att| - 1]) + att[|att| - 1].present.GetOr(0)
  }

  /** `sum(record.get('total', 0) for record in attendance)` */
  function SumTotal(att: seq<Attendance>): nat
    decreases |att|
  {
    if |att| == 0 then 0 else SumTotal(att[..|att| - 1]) + att[|att| - 1].total.GetOr(0)
  }

  /** The `approvalRating` key: set only for a non-empty attendance list
      whose totals add up to more than zero. */
  function ApprovalOf(att: Option<seq<Attendance>>): (r: Option<Ratio>)
    ensures r.Some? <==> att.Some? && |att.value| > 0 && SumTotal(att.value) > 0
    ensures r.Some? ==> r.value.sessions > 0
  {
    if att.Some? && |att.value| > 0 && SumTotal(att.value) > 0 then
      Some(Ratio(SumPresent(att.value), SumTotal(att.value)))
    else None
  }

  /** When every record that has a present count also has a total, the
      rating stays within the 0-5 scale: present <= sessions. */
  lemma {:induction false} ApprovalWithinScale(att: seq<Attendance>)
    requires forall a :: a in att ==> TotalConsistent(a) && (a.present.Some? ==> a.total.Some?)
    ensures SumPresent(att) <= SumTotal(att)
    decreases |att|
  {
    if |att| > 0 {
      ApprovalWithinScale(att[..|att| - 1]);
    }
  }

  /** A record with a present count but no absent count adds to the
      numerator and not to the denominator, so the ratio can exceed 1. */
  lemma ApprovalCanExceedScale()
    ensures ApprovalOf(Some([Attendance("Jan", Some(4), None, None), Attendance("Feb", Some(1), Some(0), Some(1))]))
            == Some(Ratio(5, 1))
  {
    var att := [Attendance("Jan", Some(4), None, None), Attendance("Feb", Some(1), Some(0), Some(1))];
    assert att[..1][..0] == [];
    assert SumPresent(att[..1]) == 4 && SumTotal(att[..1]) == 0;
  }

  /** The first `n` promise descriptions. */
  function Descriptions(ps: seq<Promise>): (r: seq<string>)
    ensures |r| == |ps| && forall i :: 0 <= i < |ps| ==> r[i] == ps[i].description
  {
    seq(|ps|, i requires 0 <= i < |ps| => ps[i].description)
  }

  function Min(a: nat, b: nat): nat { if a < b then a else b }

  /** The `keyAchievements` key: the descriptions of the first five promises. */
  function KeyAchievementsOf(ps: Option<seq<Promise>>): (r: Option<seq<string>>)
    ensures r.Some? <==> ps.Some? && |ps.value| > 0
    ensures r.Some? ==> (|r.value| == Min(5, |ps.value|) &&
              forall i :: 0 <= i < |r.value| ==> r.value[i] == ps.value[i].description)
  {
    if ps.Some? && |ps.value| > 0 then Some(Descriptions(ps.value[..Min(5, |ps.value|)])) else None
  }

  // ---------------------------------------------------------------- the record

  /** The fields parsed before the experience section. */
  function HeadFields(basic: Leader, page: DetailPage): Leader {
    var r := basic.(id := Some(ProfileId(basic.profileUrl)));
    r.(party := Override(PartyOf(page.partyText), r.party),
       county := Override(CountyOf(page.locationText), r.county),
       election := Override(ElectionOf(page.election), r.election),
       contact := Override(ContactOf(page.contact), r.contact))
  }

  /** The list keys parsed after the experience section, which only a
      parse that got past the promise dates assigns. */
  function ListFields(r: Leader, ps: seq<Promise>, page: DetailPage): Leader {
    var r1 := r.(promises := Override(NonEmpty(ps), r.promises));
    var r2 := if page.attendance.Some? then r1.(attendance := Override(NonEmpty(AttendanceOf(page.attendance.value)), r1.attendance)) else r1;
    if page.committees.Some? then r2.(committees := Override(NonEmpty(CommitteesOf(page.committees.value)), r2.committees)) else r2
  }

  /** The rating and achievements, computed from the record's own keys. */
  function DerivedFields(r: Leader): Leader {
    var r1 := r.(approvalRating := Override(ApprovalOf(r.attendance), r.approvalRating));
    r1.(keyAchievements := Override(KeyAchievementsOf(r1.promises), r1.keyAchievements))
  }

  function TailFields(r: Leader, ps: seq<Promise>, page: DetailPage): Leader {
    DerivedFields(ListFields(r, ps, page))
  }

  /** `parse_politician_detail_page(html, basic_info)`: the candidate itself
      when `html` is falsy (`page == None`: the fetch failed or the response
      body was empty); otherwise its copy with the keys assigned up to the
      first error. */
  function DetailRecord(basic: Leader, page: Option<DetailPage>): Leader {
    if page.None? then basic
    else
      var head := HeadFields(basic, page.value);
      match ExperienceOf(page.value.experience)
      case Raised => head
      case Parsed((edu, pos)) =>
        var r := head.(education := Override(NonEmpty(edu), head.education),
                       positions := Override(NonEmpty(pos), head.positions));
        match PromisesOf(page.value.statements)
        case Raised => r
        case Parsed(ps) => TailFields(r, ps, page.value)
  }

  /** The list-page keys of two records agree. */
  predicate SameListFields(a: Leader, b: Leader) {
    a.name == b.name && a.position == b.position && a.constituency == b.constituency &&
    a.profileUrl == b.profileUrl && a.imageUrl == b.imageUrl && a.category == b.category &&
    a.subcategory == b.subcategory && a.projects == b.projects
  }

  /** The head fields leave the list-page keys and the later keys alone. */
  lemma HeadFieldsKeep(basic: Leader, page: DetailPage)
    ensures var h := HeadFields(basic, page);
      SameListFields(h, basic) && h.id == Some(ProfileId(basic.profileUrl)) &&
      h.promises == basic.promises && h.attendance == basic.attendance && h.committees == basic.committees &&
      h.approvalRating == basic.approvalRating && h.keyAchievements == basic.keyAchievements &&
      h.party == Override(PartyOf(page.partyText), basic.party) &&
      h.county == Override(CountyOf(page.locationText), basic.county)
  {
  }

  /** The keys after the promise dates leave the list-page keys alone. */
  lemma TailFieldsKeep(r: Leader, ps: seq<Promise>, page: DetailPage)
    ensures SameListFields(TailFields(r, ps, page), r) && TailFields(r, ps, page).id == r.id
  {
    var l := ListFields(r, ps, page);
    assert SameListFields(l, r) && l.id == r.id;
  }

  /** The list-page fields are never touched, and with a page the id is the
      last segment of the profile URL. */
  lemma DetailKeepsListFields(basic: Leader, page: Option<DetailPage>)
    ensures SameListFields(DetailRecord(basic, page), basic)
    ensures page.None? ==> DetailRecord(basic, page) == basic
    ensures page.Some? ==> DetailRecord(basic, page).id == Some(ProfileId(basic.profileUrl))
  {
    if page.Some? {
      var head := HeadFields(basic, page.value);
      HeadFieldsKeep(basic, page.value);
      match ExperienceOf(page.value.experience)
      case Raised =>
        assert DetailRecord(basic, page) == head;
      case Parsed((edu, pos)) =>
        var r := head.(education := Override(NonEmpty(edu), head.education),
                       positions := Override(NonEmpty(pos), head.positions));
        assert SameListFields(r, basic) && r.id == head.id;
        match PromisesOf(page.value.statements)
        case Raised =>
          assert DetailRecord(basic, page) == r;
        case Parsed(ps) =>
          TailFieldsKeep(r, ps, page.value);
          assert DetailRecord(basic, page) == TailFields(r, ps, page.value);
    }
  }

  /** The keys an error leaves as they were: everything after the
      experience section, and the head keys as parsed. */
  predicate KeptBeforeError(r: Leader, basic: Leader, page: DetailPage) {
    r.promises == basic.promises && r.attendance == basic.attendance && r.committees == basic.committees &&
    r.approvalRating == basic.approvalRating && r.keyAchievements == basic.keyAchievements &&
    r.party == Override(PartyOf(page.partyText), basic.party) &&
    r.county == Override(CountyOf(page.locationText), basic.county)
  }

  /** The `.select` call on a list of elements ends the parse after the head keys. */
  lemma ExperienceErrorKeepsHead(basic: Leader, page: DetailPage)
    requires page.experience.ExperienceList?
    ensures DetailRecord(basic, Some(page)) == HeadFields(basic, page)
  {
    assert ExperienceOf(page.experience).Raised?;
  }

  /** A promise-date error ends the parse after the experience keys. */
  lemma PromiseErrorKeepsExperience(basic: Leader, page: DetailPage)
    requires !page.experience.ExperienceList?
    requires AnyRaises(page.statements)
    ensures var head := HeadFields(basic, page);
      var (edu, pos) := ExperienceOf(page.experience).value;
      DetailRecord(basic, Some(page)) ==
        head.(education := Override(NonEmpty(edu), head.education),
              positions := Override(NonEmpty(pos), head.positions))
  {
    PromisesRaiseIff(page.statements);
  }

  /** An error in the experience section or in a promise date keeps only
      what was assigned before it: no promise, attendance, committee,
      rating or achievement key is added. */
  lemma DetailErrorKeepsEarlierFields(basic: Leader, page: DetailPage)
    requires page.experience.ExperienceList? || AnyRaises(page.statements)
    ensures KeptBeforeError(DetailRecord(basic, Some(page)), basic, page)
  {
    HeadFieldsKeep(basic, page);
    if page.experience.ExperienceList? {
      ExperienceErrorKeepsHead(basic, page);
    } else {
      PromiseErrorKeepsExperience(basic, page);
    }
  }

  /** The derived keys of a record without them: the rating is present
      exactly when the attendance totals add up to more than zero, and the
      achievements exactly when there are promises. */
  lemma DerivedFieldsSpec(r: Leader)
    requires r.approvalRating.None? && r.keyAchievements.None?
    ensures var d := DerivedFields(r);
      d.promises == r.promises && d.attendance == r.attendance &&
      (d.approvalRating.Some? <==> r.attendance.Some? && |r.attendance.value| > 0 && SumTotal(r.attendance.value) > 0) &&
      (d.approvalRating.Some? ==>
         d.approvalRating.value == Ratio(SumPresent(r.attendance.value), SumTotal(r.attendance.value))) &&
      (d.keyAchievements.Some? <==> r.promises.Some? && |r.promises.value| > 0) &&
      (d.keyAchievements.Some? ==> d.keyAchievements.value == Descriptions(r.promises.value[..Min(5, |r.promises.value|)]))
  {
  }

  /** The list keys of a complete parse of a fresh candidate. */
  lemma ListFieldsComplete(r: Leader, page: DetailPage)
    requires r.promises.None? && r.attendance.None? && r.approvalRating.None? && r.keyAchievements.None?
    requires !AnyRaises(page.statements)
    ensures PromisesOf(page.statements).Parsed?
    ensures var l := ListFields(r, PromisesOf(page.statements).value, page);
      l.approvalRating.None? && l.keyAchievements.None? &&
      (l.promises.Some? <==> TextCount(page.statements) > 0) &&
      (l.promises.Some? ==> |l.promises.value| > 0 && WellNumbered(l.promises.value)) &&
      (l.attendance.Some? ==> |l.attendance.value| > 0 && forall a :: a in l.attendance.value ==> TotalConsistent(a))
  {
    PromisesRaiseIff(page.statements);
    PromisesNumbered(page.statements);
    if page.attendance.Some? {
      AttendanceOfConsistent(page.attendance.value);
    }
  }

  /** On a complete parse of a fresh candidate: promises are numbered
      without gaps, every attendance record is consistent, the rating is
      present exactly when the attendance totals add up to more than zero,
      and the achievements are the first min(5, N) descriptions. */
  lemma DetailCompleteParse(basic: Leader, page: DetailPage)
    requires basic.promises.None? && basic.attendance.None? && basic.approvalRating.None? && basic.keyAchievements.None?
    requires !page.experience.ExperienceList?
    requires !AnyRaises(page.statements)
    ensures var r := DetailRecord(basic, Some(page));
      (r.promises.Some? <==> TextCount(page.statements) > 0) &&
      (r.promises.Some? ==> WellNumbered(r.promises.value)) &&
      (r.attendance.Some? ==> forall a :: a in r.attendance.value ==> TotalConsistent(a)) &&
      (r.approvalRating.Some? <==> r.attendance.Some? && SumTotal(r.attendance.value) > 0) &&
      (r.approvalRating.Some? ==>
         r.approvalRating.value == Ratio(SumPresent(r.attendance.value), SumTotal(r.attendance.value))) &&
      (r.keyAchievements.Some? <==> r.promises.Some?) &&
      (r.keyAchievements.Some? ==> r.keyAchievements.value == Descriptions(r.promises.value[..Min(5, |r.promises.value|)]))
  {
    var head := HeadFields(basic, page);
    var (edu, pos) := ExperienceOf(page.experience).value;
    var r := head.(education := Override(NonEmpty(edu), head.education),
                   positions := Override(NonEmpty(pos), head.positions));
    ListFieldsComplete(r, page);
    var lists := ListFields(r, PromisesOf(page.statements).value, page);
    DerivedFieldsSpec(lists);
    assert DetailRecord(basic, Some(page)) == DerivedFields(lists);
  }
}
