/** The file names the scraper writes records under: the per-record stem of
    `save_politician_data` and the per-county slug of `generate_county_data`.
    Both end with `re.sub(r'[^\w\-]', '', ...)`, so only `[A-Za-z0-9_-]`
    survives. The writes themselves are not modelled. */
module Persistence {
  import opened Text
  import opened Records

  /** The identifier before sanitising: the `id` key when the record has
      one, otherwise the lower-cased name with spaces turned into dashes. */
  function RawStem(l: Leader): string {
    if l.id.Some? then l.id.value else ReplaceChar(Lower(l.name), ' ', '-')
  }

  /** The name of `<output_dir>/<category>/<stem>.json`. */
  function FileStem(l: Leader): (r: string)
    ensures forall i :: 0 <= i < |r| ==> IsSafeChar(r[i])
    ensures |r| <= |RawStem(l)|
  {
    Sanitize(RawStem(l))
  }

  /** A character that survives lower-casing and the name's dash
      replacement as a safe one. */
  predicate NameChar(c: char) { IsSafeChar(c) || c == ' ' }

  /** An id made only of safe characters is used as it is. */
  lemma FileStemOfSafeId(l: Leader)
    requires l.id.Some? && forall i :: 0 <= i < |l.id.value| ==> IsSafeChar(l.id.value[i])
    ensures FileStem(l) == l.id.value
  {
    SanitizeIdentity(l.id.value);
  }

  /** Without an id, a name of letters, digits, `_`, `-` and spaces gives its
      lower-cased, dashed form, with no character dropped. */
  lemma FileStemOfName(l: Leader)
    requires l.id.None? && forall i :: 0 <= i < |l.name| ==> NameChar(l.name[i])
    ensures FileStem(l) == ReplaceChar(Lower(l.name), ' ', '-')
    ensures |FileStem(l)| == |l.name|
  {
    var t := ReplaceChar(Lower(l.name), ' ', '-');
    forall i | 0 <= i < |t| ensures IsSafeChar(t[i]) {
      assert NameChar(l.name[i]);
    }
    SanitizeIdentity(t);
  }

  /** Sanitising a concatenation sanitises each part. */
  lemma {:induction false} SanitizeAppend(a: string, b: string)
    ensures Sanitize(a + b) == Sanitize(a) + Sanitize(b)
    decreases |a|
  {
    if a != [] {
      assert (a + b)[1..] == a[1..] + b;
      SanitizeAppend(a[1..], b);
    } else {
      assert a + b == b;
    }
  }

  /** A leading character outside `[\w\-]` is dropped. */
  lemma SanitizeDropsHead(c: char, y: string)
    requires forall i :: 0 <= i < |y| ==> IsSafeChar(y[i])
    requires !IsSafeChar(c)
    ensures Sanitize([c] + y) == y
  {
    assert ([c] + y)[1..] == y;
    SanitizeIdentity(y);
  }

  /** A character outside `[\w\-]` between two safe strings is dropped. */
  lemma SanitizeDrops(x: string, c: char, y: string)
    requires forall i :: 0 <= i < |x| ==> IsSafeChar(x[i])
    requires forall i :: 0 <= i < |y| ==> IsSafeChar(y[i])
    requires !IsSafeChar(c)
    ensures Sanitize(x + [c] + y) == x + y
  {
    var t := [c] + y;
    assert x + [c] + y == x + t;
    SanitizeAppend(x, t);
    SanitizeDropsHead(c, y);
    SanitizeIdentity(x);
  }

  /** Only the characters `[\w\-]` are kept, so ids that differ in one
      other character, such as "j.doe" and "jdoe", share a stem and the
      later record overwrites the earlier file. */
  lemma FileStemsCollide(a: Leader, b: Leader, x: string, y: string)
    requires forall i :: 0 <= i < |x| ==> IsSafeChar(x[i])
    requires forall i :: 0 <= i < |y| ==> IsSafeChar(y[i])
    requires a.id == Some(x + "." + y) && b.id == Some(x + y)
    ensures a.id != b.id && FileStem(a) == FileStem(b)
  {
    assert |x + "." + y| != |x + y|;
    assert x + "." + y == x + ['.'] + y;
    SanitizeDrops(x, '.', y);
    SanitizeAppend(x, y);
    SanitizeIdentity(x);
    SanitizeIdentity(y);
  }

  /** `re.sub(r'[^\w\-]', '', county.lower().replace(' ', '_'))` */
  function CountySlug(county: string): (r: string)
    ensures forall i :: 0 <= i < |r| ==> IsSafeChar(r[i])
    ensures |r| <= |county|
  {
    Sanitize(ReplaceChar(Lower(county), ' ', '_'))
  }

  /** A slug has no upper-case letter and no space. */
  lemma CountySlugShape(county: string)
    ensures var r := CountySlug(county);
      forall i :: 0 <= i < |r| ==> !('A' <= r[i] <= 'Z') && r[i] != ' '
  {
    var t := ReplaceChar(Lower(county), ' ', '_');
    var r := Sanitize(t);
    assert forall i :: 0 <= i < |t| ==> !('A' <= t[i] <= 'Z');
    SanitizeFromInput(t);
    forall i | 0 <= i < |r| ensures !('A' <= r[i] <= 'Z') && r[i] != ' ' {
      var j :| 0 <= j < |t| && t[j] == r[i];
    }
  }

  /** Slugging a slug changes nothing. */
  lemma CountySlugIdempotent(county: string)
    ensures CountySlug(CountySlug(county)) == CountySlug(county)
  {
    var r := CountySlug(county);
    CountySlugShape(county);
    LowerIdentity(r);
    ReplaceCharIdentity(r, ' ', '_');
    SanitizeIdentity(r);
  }

  /** Upper- and lower-case names, and a space against `_`, give the same
      slug, so such counties share one file. */
  lemma CountySlugsCollide(a: string, b: string)
    requires a == "Homa Bay" && b == "homa_bay"
    ensures a != b && CountySlug(a) == CountySlug(b)
  {
    assert a[0] != b[0];
    assert Lower(a) == "homa bay";
    assert ReplaceChar(Lower(a), ' ', '_') == b;
    assert ReplaceChar(Lower(b), ' ', '_') == b;
  }
}
