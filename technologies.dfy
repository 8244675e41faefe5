/**
 * `Project.get_technologies_list`: the comma-separated technologies field
 * split at every comma, each piece stripped of surrounding whitespace.
 */
module Technologies {
  import Text

  /** `[tech.strip() for tech in technologies.split(',')]`. */
  function TechnologiesList(technologies: string): (r: seq<string>)
    ensures |r| == multiset(technologies)[','] + 1
    ensures |r| == |Text.Split(technologies, ',')|
    ensures forall i :: 0 <= i < |r| ==> r[i] == Text.Strip(Text.Split(technologies, ',')[i])
    ensures forall i :: 0 <= i < |r| ==> ',' !in r[i]
    ensures forall i :: 0 <= i < |r| ==> r[i] == [] || (!Text.IsSpace(r[i][0]) && !Text.IsSpace(r[i][|r[i]| - 1]))
  {
    var parts := Text.Split(technologies, ',');
    Text.SplitCount(technologies, ',');
    Text.SplitParts(technologies, ',');
    var r := seq(|parts|, i requires 0 <= i < |parts| => Text.Strip(parts[i]));
    forall i | 0 <= i < |r|
      ensures ',' !in r[i]
      ensures r[i] == [] || (!Text.IsSpace(r[i][0]) && !Text.IsSpace(r[i][|r[i]| - 1]))
    {
      Text.StripEnds(parts[i]);
      Text.StripKeeps(parts[i], ',');
      assert parts[i] in parts;
    }
    r
  }

  /** An empty field gives one empty technology. */
  lemma EmptyField()
    ensures TechnologiesList("") == [""]
  {
    assert Text.Split("", ',') == [""];
  }

  /**
   * When no piece has whitespace around it, joining the list with commas
   * gives back the field.
   */
  lemma JoinRestores(technologies: string)
    requires forall p :: p in Text.Split(technologies, ',') ==> Text.Strip(p) == p
    ensures Text.Join(TechnologiesList(technologies), ",") == technologies
  {
    var parts := Text.Split(technologies, ',');
    var r := TechnologiesList(technologies);
    assert r == parts by {
      forall i | 0 <= i < |r|
        ensures r[i] == parts[i]
      {
        assert parts[i] in parts;
      }
    }
    Text.SplitJoin(technologies, ',');
  }
}
