/** The projects section: the category filter, which link buttons each card shows, and
    the colour of each technology tag. */
module Projects {
  import opened Options
  import opened Js
  import opened Lists

  /** A project card. `githubUrl` and `liveUrl` are optional fields of the record. */
  datatype Project = Project(
    id: int, title: string, category: string, technologies: seq<string>,
    githubUrl: Option<string>, liveUrl: Option<string>)

  /** The four projects of the section. */
  function Catalog(): seq<Project> {
    seq(4, CatalogEntry)
  }

  function CatalogEntry(i: int): Project {
    if i == 0 then
      Project(1, "Phil App Salud Mental", "Mobile", ["Swift", "Express.js", "PostgreSQL", "AWS"],
        None, Some("https://apps.apple.com/mx/app/phil-dilo-en-se%C3%B1as/id6744261684"))
    else if i == 1 then
      Project(2, "Cells QA", "Web", ["React", "Express.JS", "MySQL", "Selenium"],
        Some("https://github.com/LuisFerP12/Cells-QA"), None)
    else if i == 2 then
      Project(3, "Byzapp", "Web", ["Vue.js", "Express", "PostgreSQL"],
        Some("https://github.com/LuisFerP12/byzapp"), None)
    else
      Project(4, "Portafolio Interactivo", "Web", ["Next.js", "Tailwind CSS", "TypeScript", "AWS"],
        Some("#"), Some("http://localhost:3000/"))
  }

  /** The filter that shows every project. */
  const All: string := "Todos"

  /** The list stored by the effect for the active filter. */
  function FilterProjects(projects: seq<Project>, filter: string): seq<Project> {
    if filter == All then projects else Filter(projects, (p: Project) => p.category == filter)
  }

  /** "Todos" keeps the whole list; any other filter keeps, in their order, exactly the
      projects of that category. */
  lemma FilterProjectsSpec(projects: seq<Project>, filter: string)
    ensures filter == All ==> FilterProjects(projects, filter) == projects
    ensures filter != All ==>
      && IsSubsequence(FilterProjects(projects, filter), projects)
      && (forall p :: p in FilterProjects(projects, filter) <==> p in projects && p.category == filter)
  {
    if filter != All {
      var keep := (p: Project) => p.category == filter;
      FilterIsSubsequence(projects, keep);
      forall p ensures p in FilterProjects(projects, filter) <==> p in projects && p.category == filter {
        FilterMembership(projects, keep, p);
      }
    }
  }

  /** A project field that holds a link a button can open: present, non-empty and not
      the `"#"` placeholder. */
  predicate Usable(url: Option<string>) {
    url.Some? && Truthy(url.value) && url.value != "#"
  }

  /** The "Código" button. */
  predicate ShowsCode(p: Project) {
    Usable(p.githubUrl)
  }

  /** The "Demo" button. */
  predicate ShowsDemo(p: Project) {
    Usable(p.liveUrl)
  }

  /** The "Proyecto en desarrollo" note, by its own condition: each link is missing,
      empty or `"#"`. */
  predicate InDevelopment(p: Project) {
    && (p.githubUrl.None? || !Truthy(p.githubUrl.value) || p.githubUrl.value == "#")
    && (p.liveUrl.None? || !Truthy(p.liveUrl.value) || p.liveUrl.value == "#")
  }

  /** The note shows exactly when neither button does. */
  lemma InDevelopmentIffNoButton(p: Project)
    ensures InDevelopment(p) <==> !ShowsCode(p) && !ShowsDemo(p)
  {
  }

  /** In the catalog, projects 2 and 3 link to their code, 1 and 4 to a demo, and no
      card shows the development note. */
  lemma CatalogButtons()
    ensures forall i :: 0 <= i < 4 ==>
      && (ShowsCode(Catalog()[i]) <==> i == 1 || i == 2)
      && (ShowsDemo(Catalog()[i]) <==> i == 0 || i == 3)
      && !InDevelopment(Catalog()[i])
  {
    forall i | 0 <= i < 4
      ensures && (ShowsCode(Catalog()[i]) <==> i == 1 || i == 2)
              && (ShowsDemo(Catalog()[i]) <==> i == 0 || i == 3)
              && !InDevelopment(Catalog()[i])
    {
      assert Catalog()[i] == CatalogEntry(i);
    }
  }

  /** The number of tag colours. */
  const ColorCount: nat := 6

  /** `index % colors.length` for the tag at position `index`. */
  function ColorIndex(index: nat): (c: int)
    ensures 0 <= c < ColorCount
  {
    Rem(index, ColorCount)
  }

  /** The first six tags take the six colours in order and the colours then repeat. */
  lemma ColorCycle(index: nat)
    ensures index < ColorCount ==> ColorIndex(index) == index
    ensures ColorIndex(index + ColorCount) == ColorIndex(index)
  {
    RemNonNegative(index, ColorCount);
    RemNonNegative(index + ColorCount, ColorCount);
  }

  /** The colour of every tag of a card. */
  function TagColors(technologies: seq<string>): (colors: seq<int>)
    ensures |colors| == |technologies|
    ensures forall i :: 0 <= i < |colors| ==> 0 <= colors[i] < ColorCount
    ensures forall i :: 0 <= i < |colors| && i < ColorCount ==> colors[i] == i
  {
    seq(|technologies|, (i: int) requires 0 <= i => ColorIndex(i))
  }
}
