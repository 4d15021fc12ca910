/** The project listing's card template, `createProjectCard` in js/main.js,
    and the three projects it is applied to. */
module Cards {

  /** One entry of the project listing. */
  datatype Project = Project(image: string, title: string, description: string)

  /** The three projects the listing shows; the last has no image. */
  const ProjectsData: seq<Project> := [
    Project("images/0002.jpg", "Projeto Alpha",
            "Espaço para listar e descrever sobre o projetos da ONG."),
    Project("images/0003.jpg", "Seja um Voluntário",
            "Informações sobre como se tornar um voluntário."),
    Project("", "Faça uma Doação",
            "Instruções e informações sobre como fazer uma doação.")
  ]

  const CardOpen := "\n" + "            <div class=\"card\">" + "\n" + "                "

  /** The `<img>` element, present only for a non-empty image path. */
  function ImageTag(p: Project): (tag: string)
    ensures tag == "" <==> p.image == ""
  {
    if p.image != "" then "<img src=\"" + p.image + "\" alt=\"" + p.title + "\">" else ""
  }

  const ContentOpen := "\n" + "                <div class=\"card-content\">" + "\n" + "                    <h3>"

  /** The card's title and description, after the optional image. */
  function CardContent(p: Project): string {
    ContentOpen + p.title +
    "</h3>\n                    <p>" + p.description +
    "</p>\n                </div>\n            </div>\n        "
  }

  lemma ContentStartsWithNewline(p: Project)
    ensures |CardContent(p)| > 0 && CardContent(p)[0] == '\n'
  {
    assert ContentOpen[0] == '\n';
    assert CardContent(p) == ContentOpen + (CardContent(p)[|ContentOpen|..]);
  }

  /** `createProjectCard`: the card markup, whitespace included. */
  function ProjectCard(p: Project): (card: string)
    ensures |card| > |CardOpen| && card[..|CardOpen|] == CardOpen
  {
    CardOpen + ImageTag(p) + CardContent(p)
  }

  /** The card holds an image element right after its opening markup. */
  predicate HasImage(card: string) {
    |card| >= |CardOpen| + 4 && card[|CardOpen|..|CardOpen| + 4] == "<img"
  }

  lemma ImageTagStart(p: Project)
    requires p.image != ""
    ensures |ImageTag(p)| >= 4 && ImageTag(p)[..4] == "<img"
  {
    var tag := ImageTag(p);
    assert tag == "<img src=\"" + (p.image + "\" alt=\"" + p.title + "\">");
  }

  /** What follows the card's opening markup. */
  lemma CardAfterOpen(p: Project)
    ensures ProjectCard(p)[|CardOpen|..] == ImageTag(p) + CardContent(p)
  {
    assert ProjectCard(p) == CardOpen + (ImageTag(p) + CardContent(p));
  }

  /** A card carries an `<img>` exactly when its project has an image path. */
  lemma CardImageIffPath(p: Project)
    ensures HasImage(ProjectCard(p)) <==> p.image != ""
  {
    var card, rest := ProjectCard(p), ImageTag(p) + CardContent(p);
    CardAfterOpen(p);
    if p.image == "" {
      ContentStartsWithNewline(p);
      assert rest[0] == '\n';
      assert card[|CardOpen|] == rest[0];
    } else {
      ImageTagStart(p);
      assert rest[..4] == "<img";
      assert card[|CardOpen|..|CardOpen| + 4] == rest[..4];
    }
  }

  /** `projectsData.map(createProjectCard).join('')`. */
  function RenderGrid(ps: seq<Project>): (grid: string)
    ensures grid == "" <==> ps == []
  {
    if ps == [] then "" else ProjectCard(ps[0]) + RenderGrid(ps[1..])
  }

  /** The grid is the cards one after another, in the listing's order. */
  lemma {:induction false} RenderGridAppend(ps: seq<Project>, qs: seq<Project>)
    ensures RenderGrid(ps + qs) == RenderGrid(ps) + RenderGrid(qs)
  {
    if ps != [] {
      assert (ps + qs)[1..] == ps[1..] + qs;
      RenderGridAppend(ps[1..], qs);
    } else {
      assert ps + qs == qs;
    }
  }

  /** The first two project cards show an image, the third does not. */
  lemma ProjectsDataImages()
    ensures HasImage(ProjectCard(ProjectsData[0]))
    ensures HasImage(ProjectCard(ProjectsData[1]))
    ensures !HasImage(ProjectCard(ProjectsData[2]))
  {
    CardImageIffPath(ProjectsData[0]);
    CardImageIffPath(ProjectsData[1]);
    CardImageIffPath(ProjectsData[2]);
  }
}
