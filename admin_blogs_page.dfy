/** The blog editor of the admin panel: the tag and reading-time fields
    shown on edit, the defaults of a new post, and what a save sends. */
module AdminBlogsPage {
  import opened Common
  import opened Text
  import opened AdminForms

  /** The editor fields that differ from the stored post. */
  datatype BlogFields = BlogFields(tags: string, readTime: int, isPublished: bool)

  /** `openModal(blog)`: `tags?.join(', ') || ''` and `readTime || 5`. */
  function OpenEdit(tags: Option<seq<string>>, readTime: int, isPublished: bool): (f: BlogFields)
    ensures tags.None? ==> f.tags == ""
    ensures tags.Some? ==> f.tags == Join(tags.value, ", ")
    ensures f.readTime == (if readTime != 0 then readTime else 5)
    ensures f.isPublished == isPublished
  {
    BlogFields(if tags.Some? then Join(tags.value, ", ") else "", if readTime != 0 then readTime else 5, isPublished)
  }

  /** `openModal()` for a new post: five minutes of reading, not published. */
  const NewPost := BlogFields("", 5, false)

  /** What `onSubmit` rewrites: the tags and the reading time. */
  datatype Submission = Submission(tags: seq<string>, readTime: int)

  /** `tags.split(',').map(trim).filter(...)` and `parseInt(readTime) || 5`. */
  function Submit(tags: Option<string>, readTime: string): (s: Submission)
    ensures s.tags == CommaList(tags)
    ensures s.readTime == ParseIntOr(readTime, 5)
    ensures s.readTime != 0
  {
    Submission(CommaList(tags), ParseIntOr(readTime, 5))
  }

  /** Opening a post and saving it unchanged sends back its tags and its
      reading time (a reading time of 0 comes back as 5). */
  lemma EditRoundTrip(tags: seq<string>, readTime: nat, isPublished: bool)
    requires forall i :: 0 <= i < |tags| ==> tags[i] != "" && Trimmed(tags[i]) && ',' !in tags[i]
    ensures var f := OpenEdit(Some(tags), readTime, isPublished);
            Submit(Some(f.tags), DecimalString(f.readTime as nat)) == Submission(tags, if readTime == 0 then 5 else readTime)
  {
    CommaRoundTrip(tags);
    var shown: nat := if readTime == 0 then 5 else readTime;
    ParseIntOfDecimal(shown);
  }

  /** A new post saved without edits has no tags and five minutes of
      reading. */
  lemma NewPostSubmits()
    ensures Submit(Some(NewPost.tags), DecimalString(NewPost.readTime as nat)) == Submission([], 5)
    ensures !NewPost.isPublished
  {
    ParseIntOfDecimal(5);
  }
}
