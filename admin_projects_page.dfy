/** The project editor of the admin panel: the image list edited by index,
    the list and date fields shown on edit and read back on save, and the
    category labels. */
module AdminProjectsPage {
  import opened Common
  import opened Text
  import opened ProjectModel
  import opened AdminForms

  // ------------------------------------------------------------ images

  /** One `{ url, caption }` object of the image list. The caption editor
      writes into the object itself, so it is a class. */
  class ImageEntry {
    var url: string
    var caption: string

    constructor (url: string, caption: string)
      ensures this.url == url && this.caption == caption
    {
      this.url := url;
      this.caption := caption;
    }
  }

  /** The values the entries hold, as the save request sends them. */
  function RefsOf(es: seq<ImageEntry>): (r: seq<ImageRef>)
    reads es
    ensures |r| == |es|
    ensures forall i :: 0 <= i < |es| ==> r[i] == ImageRef(es[i].url, es[i].caption)
  {
    if es == [] then [] else [ImageRef(es[0].url, es[0].caption)] + RefsOf(es[1..])
  }

  /** The `projectImages` state of the editor. */
  class ImageList {
    var images: seq<ImageEntry>

    /** No entry object appears twice. */
    ghost predicate Valid()
      reads this
    {
      forall i, j :: 0 <= i < j < |images| ==> images[i] != images[j]
    }

    function Refs(): (r: seq<ImageRef>)
      reads this, images
      ensures |r| == |images|
    {
      RefsOf(images)
    }

    constructor ()
      ensures Valid() && images == []
    {
      images := [];
    }

    /** `setProjectImages(project.images || [])` when the editor opens: the
        editor holds the listed project's own image objects, not copies
        (`entries` is `[]` for a project without images). */
    method Load(entries: seq<ImageEntry>)
      requires forall i, j :: 0 <= i < j < |entries| ==> entries[i] != entries[j]
      modifies this
      ensures Valid() && images == entries
      ensures Refs() == RefsOf(entries)
    {
      images := entries;
    }

    /** `handleImageUpload` after the upload answered with `filePath`: one
        new image with an empty caption at the end. */
    method AddUploaded(filePath: string)
      requires Valid()
      modifies this
      ensures Valid()
      ensures |images| == |old(images)| + 1 && images[..|old(images)|] == old(images)
      ensures fresh(images[|images| - 1])
      ensures Refs() == old(Refs()) + [ImageRef(filePath, "")]
    {
      var e := new ImageEntry(filePath, "");
      images := images + [e];
    }

    /** `updateImageCaption(index, caption)`: the list is copied but its
        objects are shared, so the caption is written into the entry object
        itself. Only that image's caption changes. */
    method UpdateCaption(index: nat, caption: string)
      requires Valid() && index < |images|
      modifies images[index]
      ensures images == old(images)
      ensures Refs() == old(Refs())[index := ImageRef(old(Refs())[index].url, caption)]
    {
      images[index].caption := caption;
    }

    /** `removeImage(index)`: every image except the one at `index`, in order. */
    method Remove(index: nat)
      requires Valid()
      modifies this
      ensures Valid()
      ensures images == if index < |old(images)| then old(images)[..index] + old(images)[index + 1..] else old(images)
      ensures index < |old(images)| ==> Refs() == old(Refs())[..index] + old(Refs())[index + 1..]
    {
      if index < |images| {
        images := images[..index] + images[index + 1..];
      }
    }
  }

  /** The image objects are shared with the project list: a caption edited
      and then abandoned by closing the editor without saving is still there
      when the editor opens the same project again. */
  method ReopenAfterCancelledEdit(list: ImageList, entries: seq<ImageEntry>, caption: string)
    requires |entries| > 0
    requires forall i, j :: 0 <= i < j < |entries| ==> entries[i] != entries[j]
    modifies list, entries[0]
    ensures list.images == entries
    ensures entries[0].caption == caption && list.Refs()[0].caption == caption
  {
    list.Load(entries);
    list.UpdateCaption(0, caption);
    list.Load(entries);
  }

  // -------------------------------------------------------- form fields

  /** The fields the editor shows for a stored project, where they differ
      from the stored values. */
  datatype EditFields = EditFields(features: string, technologies: string, completedDate: string)

  /** `completedDate ? completedDate.split('T')[0] : ''`: the day part of a
      stored date. */
  function DateField(completedDate: Option<string>): (d: string)
    ensures !Truthy(completedDate) ==> d == ""
    ensures Truthy(completedDate) ==> 'T' !in d
    ensures Truthy(completedDate) ==>
              d <= completedDate.value && (|d| == |completedDate.value| || completedDate.value[|d|] == 'T')
  {
    if Truthy(completedDate) then
      SplitHead(completedDate.value, 'T');
      Split(completedDate.value, 'T')[0]
    else ""
  }

  /** `openModal(project)`. */
  function OpenEdit(features: Option<seq<string>>, technologies: Option<seq<string>>,
                    completedDate: Option<string>): (f: EditFields)
    ensures f.features == JoinLines(features) && f.technologies == JoinLines(technologies)
    ensures f.completedDate == DateField(completedDate)
  {
    EditFields(JoinLines(features), JoinLines(technologies), DateField(completedDate))
  }

  /** The fields `onSubmit` rewrites before the request. */
  datatype Submission = Submission(features: seq<string>, technologies: seq<string>,
                                   completedDate: Option<string>, images: seq<ImageRef>)

  /** `onSubmit`: the list fields split into lines, an empty date sent as
      `null`, and the current images. */
  function Submit(features: Option<string>, technologies: Option<string>, completedDate: string,
                  images: seq<ImageRef>): (s: Submission)
    ensures s.features == LinesList(features) && s.technologies == LinesList(technologies)
    ensures s.completedDate.None? <==> completedDate == ""
    ensures s.completedDate.Some? ==> s.completedDate.value == completedDate
    ensures s.images == images
  {
    Submission(LinesList(features), LinesList(technologies),
               if completedDate == "" then None else Some(completedDate), images)
  }

  /** Opening a project and saving it unchanged sends back its feature and
      technology lists and the day of its completion date. */
  lemma EditRoundTrip(features: seq<string>, technologies: seq<string>, day: string, time: string,
                      images: seq<ImageRef>)
    requires forall i :: 0 <= i < |features| ==> !IsBlank(features[i]) && '\n' !in features[i]
    requires forall i :: 0 <= i < |technologies| ==> !IsBlank(technologies[i]) && '\n' !in technologies[i]
    requires day != "" && 'T' !in day
    ensures var f := OpenEdit(Some(features), Some(technologies), Some(day + "T" + time));
            Submit(Some(f.features), Some(f.technologies), f.completedDate, images)
              == Submission(features, technologies, Some(day), images)
  {
    LinesRoundTrip(features);
    LinesRoundTrip(technologies);
    SplitAfterHead(day, 'T', time);
    assert day + "T" + time == day + ['T'] + time;
  }

  // -------------------------------------------------------- categories

  /** The editor's category options. */
  const CategoryOptions: seq<LabelOption> := [
    LabelOption("web", "Web"), LabelOption("mobile", "Mobil"), LabelOption("desktop", "Desktop"),
    LabelOption("erp", "ERP"), LabelOption("automation", "Otomasyon"), LabelOption("other", "Diğer")]

  /** `getCategoryLabel(category)`. */
  function CategoryLabel(category: string): (r: string)
    ensures (forall i :: 0 <= i < |CategoryOptions| ==> CategoryOptions[i].value != category) ==> r == category
  {
    LabelOr(CategoryOptions, category)
  }

  /** The label each schema category is shown with. */
  function LabelOf(c: ProjectCategory): string {
    match c
    case Web => "Web"
    case Mobile => "Mobil"
    case Desktop => "Desktop"
    case Erp => "ERP"
    case Automation => "Otomasyon"
    case Other => "Diğer"
  }

  /** Every category the schema accepts has its own label in the editor,
      and any other value is shown as it is. */
  lemma {:induction false} EveryCategoryLabelled(c: ProjectCategory, other: string)
    requires ParseCategory(other).None?
    ensures CategoryLabel(CategoryName(c)) == LabelOf(c)
    ensures CategoryLabel(other) == other
  {
    var opts := CategoryOptions;
    match c {
      case Web => assert opts[0].value == "web";
      case Mobile => assert opts[1].value == "mobile" && opts[0].value != "mobile";
      case Desktop =>
        assert opts[2].value == "desktop";
        assert forall k :: 0 <= k < 2 ==> opts[k].value != "desktop";
      case Erp =>
        assert opts[3].value == "erp";
        assert forall k :: 0 <= k < 3 ==> opts[k].value != "erp";
      case Automation =>
        assert opts[4].value == "automation";
        assert forall k :: 0 <= k < 4 ==> opts[k].value != "automation";
      case Other =>
        assert opts[5].value == "other";
        assert forall k :: 0 <= k < 5 ==> opts[k].value != "other";
    }
    assert forall i :: 0 <= i < |opts| ==> opts[i].value != other;
  }
}
