/** `format_json_output`: each record projected onto the keys of the
    published example format. Keys that the record lacks are left out of
    the projection, except the six always written, which default to "".
    Records produced by the list page always carry `county` and `image_url`
    (possibly None, written as null), so those two are copied as they are. */
module Format {
  import opened Text
  import opened Records

  datatype FormattedContact = FormattedContact(email: string, office: string, socialMedia: Option<SocialMedia>)

  datatype FormattedLeader = FormattedLeader(
    id: string,
    name: string,
    position: string,
    county: Option<string>,
    party: string,
    imageUrl: Option<string>,
    electedDate: Option<string>,
    approvalRating: Option<Ratio>,
    totalVotes: Option<nat>,
    contact: Option<FormattedContact>,
    education: Option<seq<string>>,
    projects: Option<nat>,  // the copied list, by its length (never set by the scraper)
    promises: Option<seq<Promise>>,
    attendance: Option<seq<Attendance>>,
    keyAchievements: Option<seq<string>>)

  /** `leader.get("id", "").lower().replace(" ", "-")` */
  function FormatId(id: string): (r: string)
    ensures |r| == |id|
  {
    ReplaceChar(Lower(id), ' ', '-')
  }

  function FormatContact(c: Contact): FormattedContact {
    FormattedContact(c.email.GetOr(""), c.office.GetOr(""), c.socialMedia)
  }

  function FormatLeader(l: Leader): FormattedLeader {
    FormattedLeader(
      FormatId(l.id.GetOr("")), l.name, l.position, l.county, l.party.GetOr(""), l.imageUrl,
      if l.election.Some? then l.election.value.electedDate else None,
      l.approvalRating,
      if l.election.Some? then l.election.value.totalVotes else None,
      if l.contact.Some? then Some(FormatContact(l.contact.value)) else None,
      l.education, l.projects, l.promises, l.attendance, l.keyAchievements)
  }

  /** `format_json_output(json_data)`: one projection per record, in order. */
  function FormatJsonOutput(ls: seq<Leader>): (r: seq<FormattedLeader>)
    ensures |r| == |ls|
    decreases |ls|
  {
    if |ls| == 0 then [] else FormatJsonOutput(ls[..|ls| - 1]) + [FormatLeader(ls[|ls| - 1])]
  }

  /** The output keeps the records' order: entry `k` formats record `k`. */
  lemma {:induction false} FormatJsonOutputPointwise(ls: seq<Leader>, k: nat)
    requires k < |ls|
    ensures FormatJsonOutput(ls)[k] == FormatLeader(ls[k])
    decreases |ls|
  {
    if k < |ls| - 1 {
      FormatJsonOutputPointwise(ls[..|ls| - 1], k);
    }
  }

  /** A formatted id has no upper-case letter and no space, and formatting
      it again changes nothing. */
  lemma FormatIdShape(id: string)
    ensures var r := FormatId(id); forall i :: 0 <= i < |r| ==> !('A' <= r[i] <= 'Z') && r[i] != ' '
    ensures FormatId(FormatId(id)) == FormatId(id)
  {
    var r := FormatId(id);
    assert forall i :: 0 <= i < |r| ==> !('A' <= r[i] <= 'Z') && r[i] != ' ';
    LowerIdentity(r);
    ReplaceCharIdentity(r, ' ', '-');
  }

  /** The projection does not depend on the keys it does not copy: the
      constituency, the profile URL, the category, the positions, the
      committees, the subcategory and the phone numbers. */
  lemma FormatIgnoresOtherKeys(l: Leader, m: Leader)
    requires m == l.(constituency := m.constituency, profileUrl := m.profileUrl, category := m.category,
                     positions := m.positions, committees := m.committees, subcategory := m.subcategory,
                     contact := m.contact)
    requires l.contact.Some? <==> m.contact.Some?
    requires l.contact.Some? ==> m.contact.value == l.contact.value.(phone := m.contact.value.phone)
    ensures FormatLeader(m) == FormatLeader(l)
  {
  }

  /** A candidate whose detail page was never parsed formats with empty id
      and party, and with no optional key. */
  lemma FormatBareCandidate(l: Leader)
    requires l.id.None? && l.party.None? && l.election.None? && l.contact.None? && l.approvalRating.None?
    ensures var f := FormatLeader(l);
      f.id == "" && f.party == "" && f.electedDate.None? && f.totalVotes.None? && f.contact.None? &&
      f.approvalRating.None? && f.name == l.name && f.county == l.county
  {
  }
}
