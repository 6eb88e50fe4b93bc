/** The public portfolio: the category buttons and the request they make,
    the category label on each card, the technology badges and the image
    lightbox. */
module SitePortfolioPage {
  import opened Common
  import opened Text
  import opened ProjectModel
  import ProjectRoutes
  import Seqs

  /** The category buttons of the page. */
  const CategoryOptions: seq<LabelOption> := [
    LabelOption("all", "Tümü"), LabelOption("web", "Web"), LabelOption("mobile", "Mobil"),
    LabelOption("erp", "ERP"), LabelOption("automation", "Otomasyon")]

  /** Each button asks the server for what it names: `all` for every active
      project, any other button for the active projects of that category. */
  lemma ButtonsSelectCategory(ps: seq<Project>, i: nat, p: Project)
    requires i < |CategoryOptions|
    ensures var r := ProjectRoutes.PublicList(ps, FilterParam(CategoryOptions[i].value), None);
            multiset(r)[p] == if p.isActive && (i == 0 || CategoryName(p.category) == CategoryOptions[i].value)
                              then multiset(ps)[p] else 0
  {
  }

  /** `categories.find(c => c.value === project.category)?.label ||
      project.category`. */
  function CardLabel(c: ProjectCategory): string {
    LabelOr(CategoryOptions, CategoryName(c))
  }

  /** The card label of each category: the button's label where there is a
      button, the stored name for `desktop` and `other`. */
  lemma {:induction false} CardLabels(c: ProjectCategory)
    ensures CardLabel(c) == match c
                            case Web => "Web"
                            case Mobile => "Mobil"
                            case Erp => "ERP"
                            case Automation => "Otomasyon"
                            case Desktop => "desktop"
                            case Other => "other"
  {
    var opts := CategoryOptions;
    match c {
      case Web => assert opts[1].value == "web" && opts[0].value != "web";
      case Mobile =>
        assert opts[2].value == "mobile";
        assert forall k :: 0 <= k < 2 ==> opts[k].value != "mobile";
      case Erp =>
        assert opts[3].value == "erp";
        assert forall k :: 0 <= k < 3 ==> opts[k].value != "erp";
      case Automation =>
        assert opts[4].value == "automation";
        assert forall k :: 0 <= k < 4 ==> opts[k].value != "automation";
      case Desktop => assert forall k :: 0 <= k < |opts| ==> opts[k].value != "desktop";
      case Other => assert forall k :: 0 <= k < |opts| ==> opts[k].value != "other";
    }
  }

  /** The most technologies shown on a card. */
  const ShownTechnologies: nat := 3

  /** The badges of a card: the first three technologies, and a `+n` badge
      for the rest when there is a rest. */
  datatype TechBadges = TechBadges(shown: seq<string>, more: Option<nat>)

  function Badges(technologies: seq<string>): (b: TechBadges)
    ensures b.shown <= technologies && |b.shown| <= ShownTechnologies
    ensures b.more.Some? <==> |technologies| > ShownTechnologies
    ensures b.more.Some? ==> b.more.value > 0
    ensures |b.shown| == if |technologies| < ShownTechnologies then |technologies| else ShownTechnologies
    ensures b.more.Some? ==> b.more.value == |technologies| - ShownTechnologies
  {
    var shown := Seqs.Take(technologies, ShownTechnologies);
    if |technologies| > ShownTechnologies then TechBadges(shown, Some(|technologies| - ShownTechnologies))
    else TechBadges(shown, None)
  }

  /** Every technology is accounted for exactly once: shown, or counted in
      the `+n` badge. */
  lemma BadgesCountEveryTechnology(technologies: seq<string>)
    ensures var b := Badges(technologies);
            |b.shown| + (if b.more.Some? then b.more.value else 0) == |technologies|
    ensures var b := Badges(technologies);
            b.more.None? ==> b.shown == technologies
  {
  }

  /** The picture the lightbox opens. */
  datatype LightboxImage = LightboxImage(url: string, title: string)

  /** A click on a card's picture: the lightbox opens with
      `BASE_URL + thumbnail` only when the project has a thumbnail. */
  function OnPictureClick(baseUrl: string, p: Project): (r: Option<LightboxImage>)
    ensures r.Some? <==> p.thumbnail != ""
    ensures r.Some? ==> StartsWith(r.value.url, baseUrl) && r.value.title == p.title
  {
    if p.thumbnail != "" then Some(LightboxImage(baseUrl + p.thumbnail, p.title)) else None
  }

  /** The lightbox shows the card's own thumbnail: the part of its address
      after the base is the thumbnail path. */
  lemma LightboxShowsThumbnail(baseUrl: string, p: Project)
    requires p.thumbnail != ""
    ensures OnPictureClick(baseUrl, p).value.url[|baseUrl|..] == p.thumbnail
  {
    assert (baseUrl + p.thumbnail)[|baseUrl|..] == p.thumbnail;
  }
}
