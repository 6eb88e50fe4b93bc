/** The blog routes: the public list and slug lookup (which counts a view),
    the admin list, the deprecated `/:slug` list, and create, update and
    delete with the `publishedAt` stamping rule. */
module BlogRoutes {
  import opened Common
  import opened Text
  import Seqs
  import Store

  datatype Blog = Blog(
    id: nat,
    title: string,
    slug: string,
    excerpt: string,
    content: string,
    category: string,
    tags: seq<string>,
    featuredImage: string,
    readTime: int,
    isPublished: bool,
    publishedAt: Option<int>,
    views: nat,
    author: Option<nat>,
    createdAt: int)

  /** A request body: each field is present (`Some`) or absent. A
      `publishedAt` that is absent or falsy is `None`. */
  datatype BlogBody = BlogBody(
    title: Option<string>,
    slug: Option<string>,
    excerpt: Option<string>,
    content: Option<string>,
    category: Option<string>,
    tags: Option<seq<string>>,
    featuredImage: Option<string>,
    readTime: Option<int>,
    isPublished: Option<bool>,
    publishedAt: Option<int>)

  function BlogId(b: Blog): nat { b.id }

  /** `sort({ createdAt: -1 })`. */
  function NewestFirst(b: Blog): Seqs.Key { Seqs.Key(-b.createdAt, 0) }

  /** `sort({ publishedAt: -1 })`: a missing date sorts below every date, so
      it comes last. */
  function LatestPublishedFirst(b: Blog): Seqs.Key {
    if b.publishedAt.Some? then Seqs.Key(0, -b.publishedAt.value) else Seqs.Key(1, 0)
  }

  // --------------------------------------------------------------- reading

  /** The filter of the public list: published, and of the category and
      carrying the tag when those are given. */
  predicate PublicMatch(category: Option<string>, tag: Option<string>, b: Blog) {
    && b.isPublished
    && (Truthy(category) ==> b.category == category.value)
    && (Truthy(tag) ==> tag.value in b.tags)
  }

  /** `limit(parseInt(limit))` when `limit` is given; a limit of 0 or one
      that does not parse leaves the list whole, a negative one counts by its
      magnitude. */
  function LimitOf(limit: Option<string>): (n: Option<nat>)
    ensures n.Some? ==> n.value > 0
    ensures n.None? <==> !Truthy(limit) || ParseInt(limit.value).None? || ParseInt(limit.value).value == 0
    ensures n.Some? ==> n.value == ParseInt(limit.value).value || n.value == -ParseInt(limit.value).value
  {
    if !Truthy(limit) then None
    else match ParseInt(limit.value)
      case None => None
      case Some(k) => if k == 0 then None else Some(if k < 0 then -k else k)
  }

  /** `GET /`: published posts, narrowed by category and tag, latest first,
      at most `limit` of them. */
  function PublicList(blogs: seq<Blog>, category: Option<string>, tag: Option<string>,
                      limit: Option<string>): (r: seq<Blog>)
    ensures Seqs.SortedBy(r, LatestPublishedFirst)
    ensures forall i :: 0 <= i < |r| ==> r[i] in blogs && PublicMatch(category, tag, r[i])
    ensures r <= Seqs.Query(blogs, b => PublicMatch(category, tag, b), LatestPublishedFirst)
    ensures var all := Seqs.Query(blogs, b => PublicMatch(category, tag, b), LatestPublishedFirst);
            |r| == match LimitOf(limit)
                   case None => |all|
                   case Some(n) => if |all| < n then |all| else n
    ensures LimitOf(limit).None? ==>
      forall b :: multiset(r)[b] == if PublicMatch(category, tag, b) then multiset(blogs)[b] else 0
  {
    var all := Seqs.Query(blogs, b => PublicMatch(category, tag, b), LatestPublishedFirst);
    var n := LimitOf(limit);
    if n.None? then all
    else
      Seqs.TakeSorted(all, n.value, LatestPublishedFirst);
      Seqs.Take(all, n.value)
  }

  /** `GET /admin/all`, and the deprecated `GET /:slug`, which ignores its
      slug: every post, published or not, newest first. */
  function AllNewestFirst(blogs: seq<Blog>): (r: seq<Blog>)
    ensures Seqs.SortedBy(r, NewestFirst)
    ensures multiset(r) == multiset(blogs)
  {
    var r := Seqs.Query(blogs, b => true, NewestFirst);
    assert forall b :: multiset(r)[b] == multiset(blogs)[b];
    r
  }

  /** The deprecated route answers the same list whatever slug it is given. */
  function DeprecatedBySlug(blogs: seq<Blog>, slug: string): (r: seq<Blog>)
    ensures multiset(r) == multiset(blogs)
    ensures Seqs.SortedBy(r, NewestFirst)
  {
    AllNewestFirst(blogs)
  }

  /** `findOne({ slug, isPublished: true })`. */
  function FindPublished(blogs: seq<Blog>, slug: string): (r: Option<nat>)
    ensures r.Some? ==> r.value < |blogs| && blogs[r.value].slug == slug && blogs[r.value].isPublished
    ensures r.None? <==> forall i :: 0 <= i < |blogs| ==> !(blogs[i].slug == slug && blogs[i].isPublished)
    ensures r.Some? ==> forall k :: 0 <= k < r.value ==> !(blogs[k].slug == slug && blogs[k].isPublished)
  {
    Store.FindFirst(blogs, (b: Blog) => b.slug == slug && b.isPublished)
  }

  // --------------------------------------------------------------- writing

  /** `Object.assign(blog, body)`: every field present in the body replaces
      the stored one; the id, view count, author and creation time are not
      body fields. */
  function Assign(b: Blog, body: BlogBody): (r: Blog)
    ensures r.id == b.id && r.views == b.views && r.author == b.author && r.createdAt == b.createdAt
    ensures (body.title.Some? ==> r.title == body.title.value) && (body.title.None? ==> r.title == b.title)
    ensures (body.slug.Some? ==> r.slug == body.slug.value) && (body.slug.None? ==> r.slug == b.slug)
    ensures (body.excerpt.Some? ==> r.excerpt == body.excerpt.value) && (body.excerpt.None? ==> r.excerpt == b.excerpt)
    ensures (body.content.Some? ==> r.content == body.content.value) && (body.content.None? ==> r.content == b.content)
    ensures (body.category.Some? ==> r.category == body.category.value) && (body.category.None? ==> r.category == b.category)
    ensures (body.tags.Some? ==> r.tags == body.tags.value) && (body.tags.None? ==> r.tags == b.tags)
    ensures (body.featuredImage.Some? ==> r.featuredImage == body.featuredImage.value) && (body.featuredImage.None? ==> r.featuredImage == b.featuredImage)
    ensures (body.readTime.Some? ==> r.readTime == body.readTime.value) && (body.readTime.None? ==> r.readTime == b.readTime)
    ensures (body.isPublished.Some? ==> r.isPublished == body.isPublished.value) && (body.isPublished.None? ==> r.isPublished == b.isPublished)
    ensures r.publishedAt == (if body.publishedAt.Some? then body.publishedAt else b.publishedAt)
  {
    Blog(b.id, Pick(body.title, b.title), Pick(body.slug, b.slug), Pick(body.excerpt, b.excerpt),
         Pick(body.content, b.content), Pick(body.category, b.category), Pick(body.tags, b.tags),
         Pick(body.featuredImage, b.featuredImage), Pick(body.readTime, b.readTime),
         Pick(body.isPublished, b.isPublished),
         if body.publishedAt.Some? then body.publishedAt else b.publishedAt,
         b.views, b.author, b.createdAt)
  }

  const EmptyBody := BlogBody(None, None, None, None, None, None, None, None, None, None)

  /** An empty body changes nothing, and applying a body twice is applying
      it once. */
  lemma AssignLaws(b: Blog, body: BlogBody)
    ensures Assign(b, EmptyBody) == b
    ensures Assign(Assign(b, body), body) == Assign(b, body)
  {
  }

  /** An empty post: the fields a body does not give. */
  function Blank(id: nat, author: nat, now: int): Blog {
    Blog(id, "", "", "", "", "", [], "", 0, false, None, 0, Some(author), now)
  }

  /** `POST /`: the body with `author` set to the current user, stamped with
      `now` when it is published without a date. */
  function NewBlog(body: BlogBody, author: nat, id: nat, now: int): (r: Blog)
    ensures r.author == Some(author) && r.views == 0 && r.id == id && r.createdAt == now
    ensures body.isPublished == Some(true) && body.publishedAt.None? ==> r.publishedAt == Some(now)
    ensures !(body.isPublished == Some(true)) || body.publishedAt.Some? ==> r.publishedAt == body.publishedAt
    ensures (body.title.Some? ==> r.title == body.title.value) && (body.title.None? ==> r.title == "")
    ensures (body.slug.Some? ==> r.slug == body.slug.value) && (body.slug.None? ==> r.slug == "")
    ensures (body.excerpt.Some? ==> r.excerpt == body.excerpt.value) && (body.excerpt.None? ==> r.excerpt == "")
    ensures (body.content.Some? ==> r.content == body.content.value) && (body.content.None? ==> r.content == "")
    ensures (body.category.Some? ==> r.category == body.category.value) && (body.category.None? ==> r.category == "")
    ensures (body.tags.Some? ==> r.tags == body.tags.value) && (body.tags.None? ==> r.tags == [])
    ensures (body.featuredImage.Some? ==> r.featuredImage == body.featuredImage.value) && (body.featuredImage.None? ==> r.featuredImage == "")
    ensures (body.readTime.Some? ==> r.readTime == body.readTime.value) && (body.readTime.None? ==> r.readTime == 0)
    ensures r.isPublished <==> body.isPublished == Some(true)
  {
    var stamped := if body.isPublished == Some(true) && body.publishedAt.None?
                   then body.(publishedAt := Some(now)) else body;
    Assign(Blank(id, author, now), stamped)
  }

  /** `PUT /:id`: a post going from unpublished to published gets `now` as
      its date (replacing any date in the body); otherwise the body applies. */
  function UpdatedBlog(b: Blog, body: BlogBody, now: int): (r: Blog)
    ensures body.isPublished == Some(true) && !b.isPublished ==> r.publishedAt == Some(now)
    ensures b.isPublished ==> r.publishedAt == (if body.publishedAt.Some? then body.publishedAt else b.publishedAt)
    ensures body.isPublished == Some(true) && !b.isPublished ==> r == Assign(b, body).(publishedAt := Some(now))
    ensures !(body.isPublished == Some(true) && !b.isPublished) ==> r == Assign(b, body)
    ensures r.id == b.id && r.views == b.views && r.author == b.author
  {
    var stamped := if body.isPublished == Some(true) && !b.isPublished
                   then body.(publishedAt := Some(now)) else body;
    Assign(b, stamped)
  }

  /** The blog collection. */
  class BlogStore {
    var blogs: seq<Blog>
    var nextId: nat

    ghost predicate Valid()
      reads this
    {
      Store.UniqueIds(blogs, BlogId) && Store.IdsBelow(blogs, BlogId, nextId)
    }

    constructor ()
      ensures Valid() && blogs == []
    {
      blogs := [];
      nextId := 0;
    }

    /** `GET /slug/:slug`: a published post's view count goes up by one. */
    method ViewBySlug(slug: string) returns (r: Response<Blog>)
      requires Valid()
      modifies this
      ensures Valid()
      ensures match FindPublished(old(blogs), slug)
        case None => r == Failure(404, "Blog not found") && blogs == old(blogs)
        case Some(i) => && blogs == old(blogs)[i := old(blogs)[i].(views := old(blogs)[i].views + 1)]
                        && r == Success(200, blogs[i])
    {
      var found := FindPublished(blogs, slug);
      if found.None? {
        return Failure(404, "Blog not found");
      }
      var i := found.value;
      var blog := blogs[i].(views := blogs[i].views + 1);
      Store.ReplaceKeepsIds(blogs, BlogId, i, blog);
      blogs := blogs[i := blog];
      r := Success(200, blog);
    }

    /** `POST /` */
    method Create(body: BlogBody, author: nat, now: int) returns (r: Response<Blog>)
      requires Valid()
      modifies this
      ensures Valid()
      ensures blogs == old(blogs) + [NewBlog(body, author, old(nextId), now)]
      ensures r == Success(201, NewBlog(body, author, old(nextId), now))
    {
      var blog := NewBlog(body, author, nextId, now);
      Store.AppendFreshId(blogs, BlogId, nextId, blog);
      blogs := blogs + [blog];
      nextId := nextId + 1;
      r := Success(201, blog);
    }

    /** `PUT /:id` */
    method Update(id: nat, body: BlogBody, now: int) returns (r: Response<Blog>)
      requires Valid()
      modifies this
      ensures Valid()
      ensures match Store.IndexOfId(old(blogs), BlogId, id)
        case None => r == Failure(404, "Blog not found") && blogs == old(blogs)
        case Some(i) => && blogs == old(blogs)[i := UpdatedBlog(old(blogs)[i], body, now)]
                        && r == Success(200, blogs[i])
    {
      var found := Store.IndexOfId(blogs, BlogId, id);
      if found.None? {
        return Failure(404, "Blog not found");
      }
      var i := found.value;
      var patch := body;
      if body.isPublished == Some(true) && !blogs[i].isPublished {
        patch := patch.(publishedAt := Some(now));
      }
      var blog := Assign(blogs[i], patch);
      Store.ReplaceKeepsIds(blogs, BlogId, i, blog);
      blogs := blogs[i := blog];
      r := Success(200, blog);
    }

    /** `DELETE /:id` */
    method Delete(id: nat) returns (r: Response<string>)
      requires Valid()
      modifies this
      ensures Valid()
      ensures match Store.IndexOfId(old(blogs), BlogId, id)
        case None => r == Failure(404, "Blog not found") && blogs == old(blogs)
        case Some(i) => && blogs == old(blogs)[..i] + old(blogs)[i + 1..]
                        && r == Success(200, "Blog deleted successfully")
      ensures forall b :: b in blogs <==> b in old(blogs) && b.id != id
    {
      var found := Store.IndexOfId(blogs, BlogId, id);
      if found.None? {
        return Failure(404, "Blog not found");
      }
      var i := found.value;
      Store.RemoveAtExactly(blogs, BlogId, i);
      blogs := blogs[..i] + blogs[i + 1..];
      r := Success(200, "Blog deleted successfully");
    }
  }
}
