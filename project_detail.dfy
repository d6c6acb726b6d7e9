/**
 * `ProjectDetail`: the project record built from a loosely typed object.
 * Each declared field takes the value given for it, or a default when the
 * key is missing; any other key is ignored.
 */
module ProjectDetails {
  import opened Wrappers

  /** The object handed to the constructor: each key present or missing.
      `title` is one of the keys callers pass that the record does not keep. */
  datatype DetailData = DetailData(
    id: Option<string>,
    projectType: Option<string>,
    owner: Option<string>,
    url: Option<string>,
    number: Option<int>,
    title: Option<string>)

  /** The five fields of a `ProjectDetail` (`type` is `projectType` here). */
  datatype ProjectDetail = ProjectDetail(
    id: string,
    projectType: string,
    owner: string,
    url: string,
    number: int)

  /** The constructor: `??` falls back to `''` (or -1 for the number) only
      for a missing key, so a present `''` or `0` is kept. */
  function MakeProjectDetail(data: DetailData): (r: ProjectDetail)
    ensures data.id.None? ==> r.id == ""
    ensures data.projectType.None? ==> r.projectType == ""
    ensures data.owner.None? ==> r.owner == ""
    ensures data.url.None? ==> r.url == ""
    ensures data.number.None? ==> r.number == -1
    ensures data.id.Some? ==> r.id == data.id.value
    ensures data.projectType.Some? ==> r.projectType == data.projectType.value
    ensures data.owner.Some? ==> r.owner == data.owner.value
    ensures data.url.Some? ==> r.url == data.url.value
    ensures data.number.Some? ==> r.number == data.number.value
  {
    ProjectDetail(
      data.id.GetOr(""),
      data.projectType.GetOr(""),
      data.owner.GetOr(""),
      data.url.GetOr(""),
      data.number.GetOr(-1))
  }

  /** The object a detail is read back from: every field present. */
  function DataOf(d: ProjectDetail, title: Option<string>): (r: DetailData)
    ensures r.id.Some? && r.projectType.Some? && r.owner.Some? && r.url.Some? && r.number.Some?
    ensures r.title == title
  {
    DetailData(Some(d.id), Some(d.projectType), Some(d.owner), Some(d.url), Some(d.number), title)
  }

  /** An empty object gives the all-default record. */
  lemma EmptyDataDefaults()
    ensures MakeProjectDetail(DetailData(None, None, None, None, None, None)) == ProjectDetail("", "", "", "", -1)
  {
  }

  /** Only the declared fields are stored: the title never reaches the record. */
  lemma TitleDropped(data: DetailData, title: Option<string>)
    ensures MakeProjectDetail(data.(title := title)) == MakeProjectDetail(data)
  {
  }

  /** Building from a detail's own fields returns that detail, whatever the
      title: present falsy values (`''`, `0`) survive. */
  lemma DetailRoundTrip(d: ProjectDetail, title: Option<string>)
    ensures MakeProjectDetail(DataOf(d, title)) == d
  {
  }
}
