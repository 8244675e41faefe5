/**
 * The project card's description: anything longer than 150 characters is
 * cut to its first 150 characters followed by an ellipsis.
 */
module ProjectCard {

  const MaxDescription: nat := 150
  const Ellipsis: string := "..."

  /** `truncatedDescription`. */
  function Truncate(description: string): (r: string)
    ensures |description| <= MaxDescription ==> r == description
    ensures |description| > MaxDescription ==>
      |r| == MaxDescription + |Ellipsis| && r[..MaxDescription] == description[..MaxDescription] && r[MaxDescription..] == Ellipsis
    ensures |r| <= MaxDescription + |Ellipsis|
    ensures var keep := if |description| <= MaxDescription then |description| else MaxDescription;
      keep <= |r| && r[..keep] == description[..keep]
  {
    if |description| > MaxDescription then description[..MaxDescription] + Ellipsis else description
  }

  /** Truncation is idempotent: truncating a result again gives the same result. */
  lemma TruncateIdempotent(description: string)
    ensures Truncate(Truncate(description)) == Truncate(description)
  {
    var r := Truncate(description);
    if |description| > MaxDescription {
      assert r[..MaxDescription] + Ellipsis == r;
    }
  }
}
