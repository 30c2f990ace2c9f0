/** The commands of the simulated terminal page: the catalogs it shows, how a typed
    line is normalised and dispatched, and the names Tab completes against. Each
    command renders an opaque output, represented here by a tag. */
module Terminal {
  import opened Options
  import opened Js
  import Lists

  /** An entry of the project catalog the `projects` and `project <id>` commands show:
      the fields the rendering branches on (descriptions, technologies and features are
      display text and are not modelled). */
  datatype Project = Project(id: int, title: string, year: string, link: string, githubUrl: string)

  /** An entry of the certification catalog the `certifications` command shows. */
  datatype Certification = Certification(
    id: int, title: string, issuer: string, date: string, url: string, unlocked: bool)

  function ProjectsData(): seq<Project> {
    seq(4, ProjectEntry)
  }

  /** Row `i` of the project catalog. */
  function ProjectEntry(i: int): Project {
    var t := ProjectText(i);
    Project(i + 1, t.0, t.1, t.2, t.3)
  }

  /** Title, year, link and repository of row `i`. */
  function ProjectText(i: int): (string, string, string, string) {
    if i == 0 then
      ("Phil App Salud Mental", "2024", "https://apps.apple.com/mx/app/phil-dilo-en-se%C3%B1as/id6744261684", "#")
    else if i == 1 then ("Cells QA", "2024", "#", "https://github.com/LuisFerP12/Cells-QA")
    else if i == 2 then ("Byzapp", "2023", "#", "https://github.com/LuisFerP12/byzapp")
    else ("Portafolio Interactivo", "2024", "http://localhost:3000/", "#")
  }

  /** A detail view shows a link only when it is present and not the `#` placeholder. */
  predicate ShowsLink(url: string) {
    Truthy(url) && url != "#"
  }

  function CertificationsData(): seq<Certification> {
    seq(4, CertificationEntry)
  }

  /** Row `i` of the certification catalog: the texts, and whether it is unlocked. */
  function CertificationEntry(i: int): Certification
    requires 0 <= i < 4
  {
    var t := CertificationText(i);
    Certification(i + 1, t.0, t.1, t.2, t.3, [true, true, true, false][i])
  }

  /** Title, issuer, date and certificate link of row `i`. */
  function CertificationText(i: int): (string, string, string, string) {
    if i == 0 then
      ("CyberOps Associate Networking Academy", "Cisco", "Noviembre 2024",
        "https://www.credly.com/badges/075a9412-ef1b-4553-92c6-d7da71fe7b53")
    else if i == 1 then
      ("CCNA: Introduction to Networks", "Cisco", "Febrero 2025",
        "https://www.credly.com/badges/0ecd8854-10a1-4b12-932c-cba431c63dc0")
    else if i == 2 then
      ("AWS Certified Cloud Practitioner", "Amazon Web Services", "Abril 2025",
        "https://www.credly.com/badges/b28a31c4-1e5d-4b80-b858-f5a0d4384616")
    else ("Próxima Certificación", "Por Desbloquear", "Futuro", "#")
  }

  /** In the detail views, projects 1 and 4 link to the app or the site and projects 2
      and 3 to their repository. */
  lemma ProjectLinks()
    ensures forall i :: 0 <= i < 4 ==>
      && (ShowsLink(ProjectsData()[i].link) <==> i == 0 || i == 3)
      && (ShowsLink(ProjectsData()[i].githubUrl) <==> i == 1 || i == 2)
  {
    forall i | 0 <= i < 4
      ensures && (ShowsLink(ProjectsData()[i].link) <==> i == 0 || i == 3)
              && (ShowsLink(ProjectsData()[i].githubUrl) <==> i == 1 || i == 2)
    {
      assert ProjectsData()[i] == ProjectEntry(i);
      if i == 0 {
        assert ProjectText(0).3 == "#";
      } else if i == 1 {
        assert ProjectText(1).2 == "#";
      } else if i == 2 {
        assert ProjectText(2).2 == "#";
      } else {
        assert ProjectText(3).3 == "#";
      }
    }
  }

  /** Exactly the unlocked certifications link to their certificate. */
  lemma CertificationLinks()
    ensures forall i :: 0 <= i < 4 ==>
      (ShowsLink(CertificationsData()[i].url) <==> CertificationsData()[i].unlocked)
  {
    forall i | 0 <= i < 4
      ensures ShowsLink(CertificationsData()[i].url) <==> CertificationsData()[i].unlocked
    {
      assert CertificationsData()[i] == CertificationEntry(i);
      if i == 3 {
        assert CertificationText(3).3 == "#";
      }
    }
  }

  /** The names Tab completes against, in the order `autocompleteCommand` lists them.
      `project` is not among them. */
  function CommandNames(): seq<string> {
    seq(11, CommandName)
  }

  function CommandName(i: int): string {
    if i == 0 then "help" else if i == 1 then "about" else if i == 2 then "projects"
    else if i == 3 then "skills" else if i == 4 then "contact" else if i == 5 then "clear"
    else if i == 6 then "certifications" else if i == 7 then "social" else if i == 8 then "experience"
    else if i == 9 then "education" else "hobbies"
  }

  /** What `certifications` shows: the unlocked certifications in full and, when at
      least one is still locked, a teaser list of the locked ones. */
  datatype CertificationsView = CertificationsView(
    unlocked: seq<Certification>, upcoming: seq<Certification>, showUpcoming: bool)

  /** The rendered output of a transcript entry, as an opaque tag. `ProjectList` renders
      the whole of `ProjectsData()` and `Certifications` renders
      `ShowCertifications(CertificationsData())`; both catalogs are constant. */
  datatype Output =
    | Welcome
    | Cleared
    | Help
    | About
    | ProjectList
    | ProjectDetail(project: Project)
    | ProjectNotFound(id: int)
    | UsageError
    | Skills
    | Certifications
    | Contact
    | Social
    | Experience
    | Education
    | Hobbies
    | Unknown(command: string)
    | Completions(names: seq<string>)

  datatype Entry = Entry(id: int, command: string, output: Output)

  /** What running a command does to the session: append one entry, or reset the
      transcript. */
  datatype Action = Append(command: string, output: Output) | Reset

  predicate NonBlank(s: string) {
    Trim(s) != []
  }

  /** `projectsData.find(p => p.id === id)`. */
  function FindProject(id: int): Option<Project> {
    Lists.Find(ProjectsData(), (p: Project) => p.id == id)
  }

  /** The catalog holds four projects numbered 1 to 4 in order. */
  lemma ProjectIds()
    ensures |ProjectsData()| == 4 && forall i :: 0 <= i < 4 ==> ProjectsData()[i].id == i + 1
  {
  }

  /** The catalog ids are 1 to 4 in order, so lookup by id is lookup by position. */
  lemma FindProjectById(id: int)
    ensures FindProject(id).Some? <==> 1 <= id <= 4
    ensures FindProject(id).Some? ==> FindProject(id).value == ProjectsData()[id - 1]
  {
    var ps := ProjectsData();
    ProjectIds();
    var r := Lists.Find(ps, (p: Project) => p.id == id);
    assert r == FindProject(id);
    if 1 <= id <= 4 {
      assert ps[id - 1].id == id;
    }
    if r.Some? {
      var i :| 0 <= i < |ps| && ps[i] == r.value && ps[i].id == id;
      assert ps[i].id == i + 1;
    }
  }

  /** `showProjectDetails(id)`: the entry is recorded as `project ${id}` whether or
      not the id is in the catalog. */
  function ShowProjectDetails(id: int): (a: Action)
    ensures a.Append? && a.command == "project " + IntToString(id)
    ensures a.output.ProjectDetail? <==> 1 <= id <= 4
    ensures a.output.ProjectDetail? ==> a.output.project == ProjectsData()[id - 1]
    ensures !a.output.ProjectDetail? ==> a.output == ProjectNotFound(id)
  {
    FindProjectById(id);
    var found := FindProject(id);
    Append("project " + IntToString(id), if found.Some? then ProjectDetail(found.value) else ProjectNotFound(id))
  }

  /** The output of `certifications`: the two filters over the catalog and the
      `some(!unlocked)` condition. */
  function ShowCertifications(data: seq<Certification>): (v: CertificationsView)
    ensures v.showUpcoming <==> |v.upcoming| > 0
    ensures |v.unlocked| + |v.upcoming| == |data|
    ensures forall c :: c in v.unlocked <==> c in data && c.unlocked
    ensures forall c :: c in v.upcoming <==> c in data && !c.unlocked
    ensures Lists.IsSubsequence(v.unlocked, data) && Lists.IsSubsequence(v.upcoming, data)
  {
    var unlocked := Lists.Filter(data, (c: Certification) => c.unlocked);
    var upcoming := Lists.Filter(data, (c: Certification) => !c.unlocked);
    Lists.FilterDisjointSizes(data, (c: Certification) => c.unlocked, (c: Certification) => !c.unlocked);
    Lists.FilterIsSubsequence(data, (c: Certification) => c.unlocked);
    Lists.FilterIsSubsequence(data, (c: Certification) => !c.unlocked);
    forall c ensures (c in unlocked <==> c in data && c.unlocked) && (c in upcoming <==> c in data && !c.unlocked) {
      Lists.FilterMembership(data, (c: Certification) => c.unlocked, c);
      Lists.FilterMembership(data, (c: Certification) => !c.unlocked, c);
    }
    var someLocked := exists i :: 0 <= i < |data| && !data[i].unlocked;
    assert someLocked <==> |upcoming| > 0 by {
      if someLocked {
        var i :| 0 <= i < |data| && !data[i].unlocked;
        assert data[i] in upcoming;
      }
      if |upcoming| > 0 {
        assert upcoming[0] in data;
        var j :| 0 <= j < |data| && data[j] == upcoming[0];
      }
    }
    CertificationsView(unlocked, upcoming, someLocked)
  }

  /** The catalog has three earned certifications and one locked placeholder, so the
      "upcoming" teaser is shown. */
  lemma CatalogCertificationsView()
    ensures var v := ShowCertifications(CertificationsData());
      |v.unlocked| == 3 && v.upcoming == [CertificationsData()[3]] && v.showUpcoming
  {
    var data := CertificationsData();
    var v := ShowCertifications(data);
    assert data[3] in v.upcoming;
    assert forall c :: c in v.upcoming ==> c == data[3];
  }

  /** The normalised line `executeCommand` dispatches on: trimmed, then lower-cased. */
  function Normalize(line: string): string {
    Lower(Trim(line))
  }

  /** The output of each command that takes no argument and records its own name;
      `None` for every other first word. */
  function Route(primary: string): Option<Output> {
    if primary == "help" then Some(Help)
    else if primary == "about" then Some(About)
    else if primary == "projects" then Some(ProjectList)
    else if primary == "skills" then Some(Skills)
    else if primary == "certifications" then Some(Certifications)
    else if primary == "contact" then Some(Contact)
    else if primary == "social" then Some(Social)
    else if primary == "experience" then Some(Experience)
    else if primary == "education" then Some(Education)
    else if primary == "hobbies" then Some(Hobbies)
    else None
  }

  /** The names `Route` answers are exactly the completion names other than `clear`. */
  lemma RouteDomain(primary: string)
    ensures Route(primary).Some? <==> primary in CommandNames() && primary != "clear"
  {
    var names := CommandNames();
    if primary in names {
      var i :| 0 <= i < |names| && names[i] == primary;
      assert primary == CommandName(i);
    }
    if Route(primary).Some? {
      var i := if primary == "help" then 0 else if primary == "about" then 1
        else if primary == "projects" then 2 else if primary == "skills" then 3
        else if primary == "contact" then 4 else if primary == "certifications" then 6
        else if primary == "social" then 7 else if primary == "experience" then 8
        else if primary == "education" then 9 else 10;
      assert names[i] == primary;
    }
  }

  /** The `project` branch: a second piece that is non-empty and that `parseInt`
      accepts selects a project; anything else is a usage error recorded under the
      normalised line. */
  function ProjectCommand(command: string, args: seq<string>): Action {
    if |args| >= 2 && Truthy(args[1]) && ParseInt(args[1]).Some? then ShowProjectDetails(ParseInt(args[1]).value)
    else Append(command, UsageError)
  }

  /** `executeCommand(line)`: split the normalised line on single spaces and dispatch
      on the first piece. */
  function Dispatch(line: string): Action {
    var command := Normalize(line);
    var args := Split(command, ' ');
    Select(args[0], command, args)
  }

  /** The `switch` of `executeCommand` on the first piece `primary` of the normalised
      line `command`, whose pieces are `args`. */
  function Select(primary: string, command: string, args: seq<string>): Action {
    if primary == "project" then ProjectCommand(command, args)
    else if primary == "clear" then Reset
    else
      match Route(primary)
      case Some(output) => Append(primary, output)
      case None => Append(command, Unknown(command))
  }

  /** The names with a dedicated branch in `executeCommand`. */
  predicate IsKnownCommand(name: string) {
    name in CommandNames() || name == "project"
  }

  /** Only `clear` resets the transcript; a name without an argument is recorded under
      that name with its output; every line whose first piece is not a known name is
      answered with an entry that names the normalised line. */
  lemma DispatchRoutes(line: string)
    ensures var primary := Split(Normalize(line), ' ')[0];
      && (Dispatch(line).Reset? <==> primary == "clear")
      && (Route(primary).Some? ==> Dispatch(line) == Append(primary, Route(primary).value))
      && (!IsKnownCommand(primary) ==> Dispatch(line) == Append(Normalize(line), Unknown(Normalize(line))))
  {
    var command := Normalize(line);
    var args := Split(command, ' ');
    SelectRoutes(args[0], command, args);
  }

  /** `DispatchRoutes` for any first piece, normalised line and pieces. */
  lemma SelectRoutes(primary: string, command: string, args: seq<string>)
    ensures Select(primary, command, args).Reset? <==> primary == "clear"
    ensures Route(primary).Some? ==> Select(primary, command, args) == Append(primary, Route(primary).value)
    ensures !IsKnownCommand(primary) ==> Select(primary, command, args) == Append(command, Unknown(command))
  {
    RouteDomain(primary);
    assert CommandNames()[5] == "clear";
    if primary == "project" {
      assert IsKnownCommand(primary);
      assert !ProjectCommand(command, args).Reset?;
    }
  }

  /** `project` with a missing piece, an empty piece (two spaces) or a piece `parseInt`
      rejects is a usage error recorded under the normalised line; otherwise the entry
      is the one `showProjectDetails` gives for the parsed id. The emptiness test
      is redundant: `parseInt` rejects the empty string. */
  lemma DispatchProject(line: string)
    requires Split(Normalize(line), ' ')[0] == "project"
    ensures var args := Split(Normalize(line), ' ');
      if |args| >= 2 && ParseInt(args[1]).Some? then
        Dispatch(line) == ShowProjectDetails(ParseInt(args[1]).value)
      else
        Dispatch(line) == Append(Normalize(line), UsageError)
  {
    var args := Split(Normalize(line), ' ');
    if |args| >= 2 && args[1] == [] {
      assert ParseInt(args[1]) == None;
    }
  }

  /** A string with a non-whitespace character is not blank. */
  lemma NonBlankAt(s: string, i: int)
    requires 0 <= i < |s| && !IsWhitespace(s[i])
    ensures NonBlank(s)
  {
    TrimBlank(s);
  }

  /** Normalising keeps a non-blank line non-blank. */
  lemma NormalizeNonBlank(line: string)
    requires NonBlank(line)
    ensures NonBlank(Normalize(line))
  {
    var t := Trim(line);
    var n := Lower(t);
    assert |n| == |t|;
    LowerOfTrimmedIsTrimmed(line);
    assert Trim(n) == n;
  }

  /** Every completion name is a non-empty run of lower-case letters. */
  lemma CommandNamesAreWords(name: string)
    requires name in CommandNames()
    ensures name != [] && forall j :: 0 <= j < |name| ==> 'a' <= name[j] <= 'z'
  {
    var i :| 0 <= i < |CommandNames()| && CommandNames()[i] == name;
    assert name == CommandName(i);
  }

  /** Every completion name is non-blank. */
  lemma CommandNamesNonBlank(name: string)
    requires name in CommandNames()
    ensures NonBlank(name)
  {
    CommandNamesAreWords(name);
    NonBlankAt(name, 0);
  }

  /** A submitted non-blank line is always recorded under a non-blank command, so it
      reaches the history (unless it is `clear`, which records nothing). */
  lemma DispatchRecordsNonBlank(line: string)
    requires NonBlank(line)
    ensures Dispatch(line).Append? ==> NonBlank(Dispatch(line).command)
  {
    var command := Normalize(line);
    NormalizeNonBlank(line);
    var args := Split(command, ' ');
    SelectRecordsNonBlank(args[0], command, args);
  }

  /** Whatever the first piece, a non-blank normalised line is recorded under a
      non-blank command. */
  lemma SelectRecordsNonBlank(primary: string, command: string, args: seq<string>)
    requires NonBlank(command)
    ensures Select(primary, command, args).Append? ==> NonBlank(Select(primary, command, args).command)
  {
    if primary == "project" {
      if |args| >= 2 && Truthy(args[1]) && ParseInt(args[1]).Some? {
        var c := ShowProjectDetails(ParseInt(args[1]).value).command;
        assert c[0] == 'p';
        NonBlankAt(c, 0);
      }
    } else if Route(primary).Some? {
      RouteDomain(primary);
      CommandNamesNonBlank(primary);
    }
  }

  /** A non-empty run of lower-case ASCII letters is its own normal form and a single
      piece. */
  lemma LowercaseWord(w: string)
    requires w != [] && forall i :: 0 <= i < |w| ==> 'a' <= w[i] <= 'z'
    ensures Normalize(w) == w && Split(w, ' ') == [w]
  {
    TrimStartKeeps(w);
    TrimEndKeeps(w);
    LowerKeepsLowercase(w);
    SplitNoSeparator(w, ' ');
  }

  /** Typing a completion name exactly runs that command. */
  lemma DispatchName(name: string)
    requires name in CommandNames()
    ensures Dispatch(name) == Select(name, name, [name])
  {
    CommandNamesAreWords(name);
    LowercaseWord(name);
  }

  /** `help` as typed, or as run by the header button. */
  lemma DispatchHelp()
    ensures Dispatch("help") == Append("help", Help)
  {
    assert CommandNames()[0] == "help";
    DispatchName("help");
    assert Route("help") == Some(Help);
    assert Select("help", "help", ["help"]) == Append("help", Help);
  }

  lemma DispatchAbout()
    ensures Dispatch("about") == Append("about", About)
  {
    assert CommandNames()[1] == "about";
    DispatchName("about");
    assert Route("about") == Some(About);
    assert Select("about", "about", ["about"]) == Append("about", About);
  }

  lemma DispatchClear()
    ensures Dispatch("clear") == Reset
  {
    assert CommandNames()[5] == "clear";
    DispatchName("clear");
  }

  /** `commands.filter(cmd => cmd.startsWith(input.toLowerCase()))` for a list of
      names `commands`. */
  function MatchesIn(commands: seq<string>, draft: string): seq<string> {
    Lists.Filter(commands, (name: string) => StartsWith(name, Lower(draft)))
  }

  /** The completions `autocompleteCommand` offers for a draft. */
  function Matches(draft: string): seq<string> {
    MatchesIn(CommandNames(), draft)
  }

  /** The completions of a draft are exactly the names its lower-cased form is a
      prefix of, in list order. */
  lemma MatchesSpec(commands: seq<string>, draft: string)
    ensures forall name :: name in MatchesIn(commands, draft) <==> name in commands && StartsWith(name, Lower(draft))
    ensures Lists.IsSubsequence(MatchesIn(commands, draft), commands)
  {
    var p := (name: string) => StartsWith(name, Lower(draft));
    forall name ensures name in MatchesIn(commands, draft) <==> name in commands && p(name) {
      Lists.FilterMembership(commands, p, name);
    }
    Lists.FilterIsSubsequence(commands, p);
  }

  /** `project` is not a completion name, so Tab never offers the one command that
      takes an argument. */
  lemma ProjectNotCompleted()
    ensures "project" !in CommandNames()
  {
    forall i | 0 <= i < 11 ensures CommandName(i) != "project" {
      assert CommandName(i) == "projects" || |CommandName(i)| != 7 || CommandName(i)[0] != 'p';
    }
  }

}
