/**
 * The agency's projects page: the category buttons ("All" and then each
 * category once) and the category filter behind them.
 */
module AgencyProjects {
  import Collections

  datatype Project = Project(id: string, title: string, category: string, technologies: seq<string>, featured: bool)

  /** The button that shows every project. */
  const All: string := "All"

  /** The page's six sample projects (descriptions, images, clients and links left out). */
  const SampleProjects: seq<Project> := [
    Project("1", "AI-Powered Customer Service Platform", "AI & Machine Learning", ["Python", "TensorFlow", "React", "Node.js"], true),
    Project("2", "Blockchain-Based Supply Chain Solution", "Blockchain", ["Solidity", "Ethereum", "React", "Web3.js"], true),
    Project("3", "Smart City Traffic Management", "Smart City", ["IoT", "Python", "TensorFlow", "React"], true),
    Project("4", "E-Commerce Platform with AI Recommendations", "Web Development", ["React", "Node.js", "MongoDB", "TensorFlow"], false),
    Project("5", "Healthcare Data Analytics Dashboard", "AI & Machine Learning", ["Python", "React", "D3.js", "PostgreSQL"], false),
    Project("6", "Mobile Banking Application", "Mobile Development", ["React Native", "Node.js", "MongoDB", "Firebase"], false)
  ]

  /** `projects.map(project => project.category)`. */
  function CategoryList(projects: seq<Project>): (cs: seq<string>)
    ensures |cs| == |projects|
    ensures forall i :: 0 <= i < |projects| ==> cs[i] == projects[i].category
  {
    seq(|projects|, i requires 0 <= i < |projects| => projects[i].category)
  }

  /**
   * `categories`: "All" first, then every category of the projects exactly
   * once. A project filed under "All" itself would make "All" appear twice.
   */
  function Categories(projects: seq<Project>): (cs: seq<string>)
    ensures |cs| >= 1 && cs[0] == All
    ensures forall c :: c in cs[1..] <==> exists p :: p in projects && p.category == c
    ensures forall i, j :: 1 <= i < j < |cs| ==> cs[i] != cs[j]
  {
    var distinct := Collections.Distinct(CategoryList(projects));
    assert ([All] + distinct)[1..] == distinct;
    assert forall c :: c in distinct ==> exists p :: p in projects && p.category == c by {
      forall c | c in distinct
        ensures exists p :: p in projects && p.category == c
      {
        var i :| 0 <= i < |projects| && CategoryList(projects)[i] == c;
        assert projects[i] in projects;
      }
    }
    [All] + distinct
  }

  /** The categories after "All" are listed in the order in which they first occur among the projects. */
  lemma CategoriesOrder(projects: seq<Project>, i: nat, j: nat)
    requires 1 <= i < j < |Categories(projects)|
    ensures var cs := Categories(projects); var all := CategoryList(projects);
      cs[i] in all && cs[j] in all && Collections.FirstIndex(all, cs[i]) < Collections.FirstIndex(all, cs[j])
  {
    var all := CategoryList(projects);
    assert Categories(projects) == [All] + Collections.Distinct(all);
    Collections.ConsDistinctOrder(All, all, i, j);
  }

  /** `Distinct` on the shape of the sample's categories: five distinct values, the first repeated fifth. */
  lemma DistinctSampleShape<T(!new)>(a: T, b: T, c: T, d: T, e: T)
    requires a != b && a != c && a != d && a != e && b != c && b != d && b != e && c != d && c != e && d != e
    ensures Collections.Distinct([a, b, c, d, a, e]) == [a, b, c, d, e]
  {
    assert [a, b][..1] == [a];
    assert Collections.Distinct([a, b]) == [a, b];
    assert [a, b, c][..2] == [a, b];
    assert Collections.Distinct([a, b, c]) == [a, b, c];
    assert [a, b, c, d][..3] == [a, b, c];
    assert Collections.Distinct([a, b, c, d]) == [a, b, c, d];
    assert [a, b, c, d, a][..4] == [a, b, c, d];
    assert Collections.Distinct([a, b, c, d, a]) == [a, b, c, d];
    assert [a, b, c, d, a, e][..5] == [a, b, c, d, a];
  }

  /** The sample projects give six buttons. */
  lemma SampleCategories()
    ensures Categories(SampleProjects)
      == [All, "AI & Machine Learning", "Blockchain", "Smart City", "Web Development", "Mobile Development"]
  {
    var ai, bc, sc, wd, md := "AI & Machine Learning", "Blockchain", "Smart City", "Web Development", "Mobile Development";
    assert CategoryList(SampleProjects) == [ai, bc, sc, wd, ai, md];
    assert ai[0] == 'A' && bc[0] == 'B' && sc[0] == 'S' && wd[0] == 'W' && md[0] == 'M';
    DistinctSampleShape(ai, bc, sc, wd, md);
  }

  function HasCategory(category: string): Project -> bool
  {
    (p: Project) => p.category == category
  }

  /**
   * The list `filterProjects(category)` shows: every project for "All",
   * otherwise exactly the projects of that category, in their order.
   */
  function ProjectsIn(projects: seq<Project>, category: string): (r: seq<Project>)
    ensures category == All ==> r == projects
    ensures category != All ==> forall p :: p in r <==> p in projects && p.category == category
    ensures category != All ==> forall p :: multiset(r)[p] == if p.category == category then multiset(projects)[p] else 0
    ensures Collections.IsSubsequence(r, projects)
  {
    if category == All then
      assert Collections.IsSubsequence(projects, projects) by {
        Collections.FilterAll(projects, (p: Project) => true);
        Collections.FilterSubsequence(projects, (p: Project) => true);
      }
      projects
    else
      Collections.FilterCounts(projects, HasCategory(category));
      Collections.FilterSubsequence(projects, HasCategory(category));
      Collections.Filter(projects, HasCategory(category))
  }

  /** The page's state. */
  class Page {
    const projects: seq<Project>
    var filteredProjects: seq<Project>
    var activeFilter: string

    /** The shown list is the one the active button selects. */
    predicate Valid()
      reads this
    {
      filteredProjects == ProjectsIn(projects, activeFilter)
    }

    /** Every project shown, "All" active. */
    constructor(sample: seq<Project>)
      ensures projects == sample && filteredProjects == sample && activeFilter == All
      ensures Valid()
    {
      projects := sample;
      filteredProjects := sample;
      activeFilter := All;
    }

    /** `filterProjects`: the clicked category becomes active and the list shows its projects. */
    method FilterProjects(category: string)
      modifies this
      ensures activeFilter == category
      ensures filteredProjects == ProjectsIn(projects, category)
      ensures Valid()
    {
      activeFilter := category;
      if category == All {
        filteredProjects := projects;
      } else {
        filteredProjects := Collections.Filter(projects, HasCategory(category));
      }
    }
  }
}
