/**
 * The document head's title rule: a title that already names a site
 * (it contains " - ") is kept, any other gets the site name appended.
 */
module Head {
  import Text

  const Separator: string := " - "
  const SiteSuffix: string := " - Codegx Technology"
  const DefaultTitle: string := "Codegx Technology - AI Agency & Portfolio"

  /** `siteTitle`. */
  function SiteTitle(title: string): (r: string)
    ensures Text.Includes(title, Separator) ==> r == title
    ensures !Text.Includes(title, Separator) ==> r == title + SiteSuffix
    ensures Text.Includes(r, Separator)
    ensures Text.StartsWith(r, title)
  {
    if Text.Includes(title, Separator) then title
    else
      var r := title + SiteSuffix;
      assert r[|title|..|title| + |Separator|] == Separator;
      Text.IncludesAt(r, Separator, |title|);
      r
  }

  /** Applying the rule to its own result changes nothing. */
  lemma SiteTitleIdempotent(title: string)
    ensures SiteTitle(SiteTitle(title)) == SiteTitle(title)
  {
  }

  /** The default title already contains the separator and is used as it is. */
  lemma DefaultTitleKept()
    ensures SiteTitle(DefaultTitle) == DefaultTitle
  {
    assert DefaultTitle[17] == ' ' && DefaultTitle[18] == '-' && DefaultTitle[19] == ' ';
    assert DefaultTitle[17..20] == Separator;
    Text.IncludesAt(DefaultTitle, Separator, 17);
  }
}
