/** The project schema: the category enumeration, the trimmed title, the
    lowercase slug, the short description of at most 200 UTF-16 code units,
    and the defaults. */
module ProjectModel {
  import opened Common
  import opened Text

  datatype ProjectCategory = Web | Mobile | Desktop | Erp | Automation | Other

  /** The six values of the category enum. */
  predicate IsCategoryName(t: string) {
    t == "web" || t == "mobile" || t == "desktop" || t == "erp" || t == "automation" || t == "other"
  }

  function CategoryName(c: ProjectCategory): (t: string)
    ensures IsCategoryName(t)
  {
    match c
    case Web => "web"
    case Mobile => "mobile"
    case Desktop => "desktop"
    case Erp => "erp"
    case Automation => "automation"
    case Other => "other"
  }

  /** The enum validator of the category path. */
  function ParseCategory(t: string): (r: Option<ProjectCategory>)
    ensures r.Some? <==> IsCategoryName(t)
  {
    if t == "web" then Some(Web)
    else if t == "mobile" then Some(Mobile)
    else if t == "desktop" then Some(Desktop)
    else if t == "erp" then Some(Erp)
    else if t == "automation" then Some(Automation)
    else if t == "other" then Some(Other)
    else None
  }

  lemma CategoryNamesRoundTrip(c: ProjectCategory, t: string)
    ensures ParseCategory(CategoryName(c)) == Some(c)
    ensures ParseCategory(t).Some? ==> CategoryName(ParseCategory(t).value) == t
  {
  }

  datatype ImageRef = ImageRef(url: string, caption: string)

  datatype Project = Project(
    id: nat,
    title: string,
    slug: string,
    shortDescription: string,
    description: string,
    category: ProjectCategory,
    images: seq<ImageRef>,
    thumbnail: string,
    technologies: seq<string>,
    features: seq<string>,
    client: string,
    completedDate: Option<int>,
    projectUrl: string,
    githubUrl: string,
    isFeatured: bool,
    isActive: bool,
    order: int,
    createdAt: int)

  /** A request body; `None` is an absent field. `completedDate` may also be
      sent as `null` (`Some(None)`). */
  datatype ProjectBody = ProjectBody(
    title: Option<string>,
    slug: Option<string>,
    shortDescription: Option<string>,
    description: Option<string>,
    category: Option<string>,
    images: Option<seq<ImageRef>>,
    thumbnail: Option<string>,
    technologies: Option<seq<string>>,
    features: Option<seq<string>>,
    client: Option<string>,
    completedDate: Option<Option<int>>,
    projectUrl: Option<string>,
    githubUrl: Option<string>,
    isFeatured: Option<bool>,
    isActive: Option<bool>,
    order: Option<int>)

  const MaxShortDescription: nat := 200

  /** What every stored project satisfies. */
  predicate ProjectValid(p: Project) {
    && p.title != "" && Trimmed(p.title)
    && p.slug != "" && Lowercase(p.slug)
    && p.shortDescription != "" && Utf16Length(p.shortDescription) <= MaxShortDescription
    && p.description != ""
  }

  /** The validators of the paths a body sets, after the setters ran:
      a present title must not be blank, a present slug, short description or
      description must not be empty, the short description is at most 200
      UTF-16 code units and a present category is one of the six. */
  predicate FieldsAccepted(body: ProjectBody) {
    && (body.title.Some? ==> !IsBlank(body.title.value))
    && (body.slug.Some? ==> body.slug.value != "")
    && (body.shortDescription.Some? ==>
          body.shortDescription.value != "" && Utf16Length(body.shortDescription.value) <= MaxShortDescription)
    && (body.description.Some? ==> body.description.value != "")
    && (body.category.Some? ==> ParseCategory(body.category.value).Some?)
  }

  /** A new document also needs every required path. */
  predicate BodyAccepted(body: ProjectBody) {
    && body.title.Some? && body.slug.Some? && body.shortDescription.Some?
    && body.description.Some? && body.category.Some?
    && FieldsAccepted(body)
  }

  /** The body applied to a project, through the `trim` and `lowercase`
      setters. */
  function ApplyBody(p: Project, body: ProjectBody): (r: Project)
    requires body.category.Some? ==> ParseCategory(body.category.value).Some?
    ensures r.id == p.id && r.createdAt == p.createdAt
    ensures r.title == (if body.title.Some? then Trim(body.title.value) else p.title)
    ensures r.slug == (if body.slug.Some? then ToLower(body.slug.value) else p.slug)
    ensures body.category.Some? ==> CategoryName(r.category) == body.category.value
    ensures body.category.None? ==> r.category == p.category
    ensures (body.shortDescription.Some? ==> r.shortDescription == body.shortDescription.value)
            && (body.shortDescription.None? ==> r.shortDescription == p.shortDescription)
    ensures (body.description.Some? ==> r.description == body.description.value)
            && (body.description.None? ==> r.description == p.description)
    ensures (body.images.Some? ==> r.images == body.images.value)
            && (body.images.None? ==> r.images == p.images)
    ensures (body.thumbnail.Some? ==> r.thumbnail == body.thumbnail.value)
            && (body.thumbnail.None? ==> r.thumbnail == p.thumbnail)
    ensures (body.technologies.Some? ==> r.technologies == body.technologies.value)
            && (body.technologies.None? ==> r.technologies == p.technologies)
    ensures (body.features.Some? ==> r.features == body.features.value)
            && (body.features.None? ==> r.features == p.features)
    ensures (body.client.Some? ==> r.client == body.client.value)
            && (body.client.None? ==> r.client == p.client)
    ensures (body.completedDate.Some? ==> r.completedDate == body.completedDate.value)
            && (body.completedDate.None? ==> r.completedDate == p.completedDate)
    ensures (body.projectUrl.Some? ==> r.projectUrl == body.projectUrl.value)
            && (body.projectUrl.None? ==> r.projectUrl == p.projectUrl)
    ensures (body.githubUrl.Some? ==> r.githubUrl == body.githubUrl.value)
            && (body.githubUrl.None? ==> r.githubUrl == p.githubUrl)
    ensures (body.isFeatured.Some? ==> r.isFeatured == body.isFeatured.value)
            && (body.isFeatured.None? ==> r.isFeatured == p.isFeatured)
    ensures (body.isActive.Some? ==> r.isActive == body.isActive.value)
            && (body.isActive.None? ==> r.isActive == p.isActive)
    ensures (body.order.Some? ==> r.order == body.order.value)
            && (body.order.None? ==> r.order == p.order)
  {
    var category :=
      if body.category.Some? then
        var c := ParseCategory(body.category.value).value;
        CategoryNamesRoundTrip(c, body.category.value);
        c
      else p.category;
    Project(p.id,
            if body.title.Some? then Trim(body.title.value) else p.title,
            if body.slug.Some? then ToLower(body.slug.value) else p.slug,
            Pick(body.shortDescription, p.shortDescription),
            Pick(body.description, p.description),
            category,
            Pick(body.images, p.images),
            Pick(body.thumbnail, p.thumbnail),
            Pick(body.technologies, p.technologies),
            Pick(body.features, p.features),
            Pick(body.client, p.client),
            Pick(body.completedDate, p.completedDate),
            Pick(body.projectUrl, p.projectUrl),
            Pick(body.githubUrl, p.githubUrl),
            Pick(body.isFeatured, p.isFeatured),
            Pick(body.isActive, p.isActive),
            Pick(body.order, p.order),
            p.createdAt)
  }

  /** Setting only valid fields keeps a valid project valid. */
  lemma ApplyBodyKeepsValid(p: Project, body: ProjectBody)
    requires ProjectValid(p) && FieldsAccepted(body)
    ensures ProjectValid(ApplyBody(p, body))
  {
  }

  /** The defaults of every path a body may leave out. */
  function Defaults(id: nat, now: int): Project {
    Project(id, "", "", "", "", Other, [], "", [], [], "", None, "", "", false, true, 0, now)
  }

  /** `new Project(body)` and its validation. */
  function NewProject(body: ProjectBody, id: nat, now: int): (r: Option<Project>)
    ensures r.Some? <==> BodyAccepted(body)
    ensures r.Some? ==> ProjectValid(r.value) && r.value.id == id && r.value.createdAt == now
    ensures r.Some? ==> (&& r.value.title == Trim(body.title.value)
                         && r.value.slug == ToLower(body.slug.value)
                         && r.value.shortDescription == body.shortDescription.value
                         && r.value.description == body.description.value
                         && CategoryName(r.value.category) == body.category.value)
    ensures r.Some? ==> (&& (body.thumbnail.Some? ==> r.value.thumbnail == body.thumbnail.value)
                         && (body.client.Some? ==> r.value.client == body.client.value)
                         && (body.projectUrl.Some? ==> r.value.projectUrl == body.projectUrl.value)
                         && (body.githubUrl.Some? ==> r.value.githubUrl == body.githubUrl.value)
                         && (body.isFeatured.Some? ==> r.value.isFeatured == body.isFeatured.value)
                         && (body.isActive.Some? ==> r.value.isActive == body.isActive.value)
                         && (body.order.Some? ==> r.value.order == body.order.value)
                         && (body.images.Some? ==> r.value.images == body.images.value)
                         && (body.technologies.Some? ==> r.value.technologies == body.technologies.value)
                         && (body.features.Some? ==> r.value.features == body.features.value)
                         && (body.completedDate.Some? ==> r.value.completedDate == body.completedDate.value))
    ensures r.Some? ==> (&& (body.thumbnail.None? ==> r.value.thumbnail == "")
                         && (body.technologies.None? ==> r.value.technologies == [])
                         && (body.features.None? ==> r.value.features == [])
                         && (body.client.None? ==> r.value.client == "")
                         && (body.projectUrl.None? ==> r.value.projectUrl == "")
                         && (body.githubUrl.None? ==> r.value.githubUrl == "")
                         && (body.isFeatured.None? ==> !r.value.isFeatured)
                         && (body.isActive.None? ==> r.value.isActive)
                         && (body.order.None? ==> r.value.order == 0)
                         && (body.images.None? ==> r.value.images == [])
                         && (body.completedDate.None? ==> r.value.completedDate.None?))
  {
    if !BodyAccepted(body) then None
    else Some(ApplyBody(Defaults(id, now), body))
  }
}
