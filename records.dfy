/** The leader record the scraper builds (a Python dict): every optional key
    is an `Option`, `None` standing for a key that is absent or holds None.
    Also the text the detail-page selectors extract, which is the input of
    the field rules. */
module Records {
  import opened Text

  /** The approval rating before rounding: 5 * present / sessions. */
  datatype Ratio = Ratio(present: nat, sessions: nat)

  datatype Election = Election(electedDate: Option<string>, totalVotes: Option<nat>)

  datatype SocialMedia = SocialMedia(twitter: Option<string>, facebook: Option<string>)

  datatype Contact = Contact(
    email: Option<string>,
    phone: Option<seq<string>>,
    office: Option<string>,
    socialMedia: Option<SocialMedia>)

  datatype Position = Position(title: string, organization: Option<string>, date: Option<string>)

  datatype Promise = Promise(
    id: string,
    description: string,
    category: string,
    madeDate: Option<string>,
    dueDate: Option<string>,
    status: string)

  datatype Attendance = Attendance(
    period: string,
    present: Option<nat>,
    absent: Option<nat>,
    total: Option<nat>)

  /** One leader. The list page fills name .. category; the detail page
      adds the rest. `projects` is never set by the scraper; it is kept as
      its length, which is what statistics read (the formatter's copy of
      the list is projected to that length). */
  datatype Leader = Leader(
    name: string,
    position: string,
    constituency: Option<string>,
    county: Option<string>,
    profileUrl: string,
    imageUrl: Option<string>,
    category: string,
    id: Option<string>,
    party: Option<string>,
    election: Option<Election>,
    contact: Option<Contact>,
    education: Option<seq<string>>,
    positions: Option<seq<Position>>,
    promises: Option<seq<Promise>>,
    attendance: Option<seq<Attendance>>,
    committees: Option<seq<string>>,
    approvalRating: Option<Ratio>,
    keyAchievements: Option<seq<string>>,
    subcategory: Option<string>,
    projects: Option<nat>)

  /** A record as the list page produces it: no detail-page key yet. */
  function Candidate(name: string, position: string, constituency: Option<string>,
                     profileUrl: string, imageUrl: Option<string>, category: string): (l: Leader)
    ensures l.county.None? && l.id.None? && l.promises.None? && l.attendance.None?
  {
    Leader(name, position, constituency, None, profileUrl, imageUrl, category,
           None, None, None, None, None, None, None, None, None, None, None, None, None)
  }

  // ---- what the detail-page selectors yield (raw, unstripped text) ----

  /** `.election-results`: the `.date` text and the `.votes` text. */
  datatype ElectionNode = ElectionNode(dateText: Option<string>, votesText: Option<string>)

  /** `#contact` or `.contact-details`: the mailto href, the tel hrefs, the
      `.address` text and the twitter and facebook hrefs. */
  datatype ContactNode = ContactNode(
    mailtoHref: Option<string>,
    telHrefs: seq<string>,
    addressText: Option<string>,
    twitterHref: Option<string>,
    facebookHref: Option<string>)

  /** One position entry: the title text (the entry's own text when it has
      no `.position-title`), the `.position-org` and the date texts. */
  datatype PositionEntry = PositionEntry(titleText: string, orgText: Option<string>, dateText: Option<string>)

  /** What `soup.select_one('#experience') or soup.select(...)` yields: nothing
      (None or an empty list), the `#experience` element with the texts of its
      education and position entries, or a non-empty list of elements, on
      which the next `.select` call raises AttributeError. */
  datatype ExperienceNode =
    | NoExperience
    | ExperienceSection(educationTexts: seq<string>, positionEntries: seq<PositionEntry>)
    | ExperienceList

  /** One statement: its date text and its text, when the element exists. */
  datatype StatementNode = StatementNode(dateText: Option<string>, text: Option<string>)

  /** One attendance row: whether it has a `th` cell, and the three cell texts. */
  datatype AttendanceRow = AttendanceRow(
    hasHeader: bool,
    periodText: Option<string>,
    presentText: Option<string>,
    absentText: Option<string>)

  datatype DetailPage = DetailPage(
    partyText: Option<string>,
    locationText: Option<string>,
    election: Option<ElectionNode>,
    contact: Option<ContactNode>,
    experience: ExperienceNode,
    statements: seq<StatementNode>,
    attendance: Option<seq<AttendanceRow>>,
    committees: Option<seq<string>>)

  /** The value of a step that can raise, such as a tuple unpacking. */
  datatype Attempt<T> = Parsed(value: T) | Raised
}
