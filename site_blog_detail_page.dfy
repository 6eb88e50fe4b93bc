/** The public post page: the post fetched by its slug and the related posts
    shown under it. The two server answers are parameters: `None` is a
    request that failed (for example a 404 for an unknown slug). */
module SiteBlogDetailPage {
  import opened Common
  import Seqs
  import opened BlogRoutes

  /** A post related to `current`: same category, another post. */
  predicate RelatedTo(current: Blog, b: Blog) {
    b.category == current.category && b.id != current.id
  }

  /** The most related posts shown. */
  const MaxRelated: nat := 3

  /** `filter(same category, other id).slice(0, 3)` over the published list. */
  function Related(list: seq<Blog>, current: Blog): (r: seq<Blog>)
    ensures |r| <= MaxRelated
    ensures forall i :: 0 <= i < |r| ==> r[i] in list && r[i].category == current.category && r[i].id != current.id
    ensures r <= Seqs.Filter(list, b => RelatedTo(current, b))
    ensures |r| == MaxRelated || r == Seqs.Filter(list, b => RelatedTo(current, b))
  {
    Seqs.Take(Seqs.Filter(list, b => RelatedTo(current, b)), MaxRelated)
  }

  /** The post itself is never among its related posts, and the related
      posts are the first matches of the list: once a part of the list holds
      three matches, whatever follows it changes nothing. */
  lemma RelatedNeverSelf(list: seq<Blog>, current: Blog, more: seq<Blog>)
    ensures current !in Related(list, current)
    ensures |Seqs.Filter(list, b => RelatedTo(current, b))| >= MaxRelated ==>
              Related(list + more, current) == Related(list, current)
  {
    Seqs.FilterConcat(list, more, b => RelatedTo(current, b));
    var f := Seqs.Filter(list, b => RelatedTo(current, b));
    if |f| >= MaxRelated {
      assert (f + Seqs.Filter(more, b => RelatedTo(current, b)))[..MaxRelated] == f[..MaxRelated];
    }
  }

  /** What the page shows: the post, the related posts, and whether it is
      still loading. */
  datatype DetailState = DetailState(blog: Option<Blog>, related: seq<Blog>, loading: bool)

  /** The page shows nothing that contradicts its post: no post, no related
      list; otherwise at most three related posts, all of the post's category
      and none of them the post. */
  predicate Consistent(st: DetailState) {
    && (st.blog.None? ==> st.related == [])
    && (st.blog.Some? ==> |st.related| <= MaxRelated
                          && forall i :: 0 <= i < |st.related| ==> RelatedTo(st.blog.value, st.related[i]))
  }

  /** `fetchBlog()` as written, run for a new slug while `st` is on screen:
      a failed post request keeps the previous post; a post without a
      category, or a failed list request, keeps the previous related posts. */
  function FetchBlogAsWritten(st: DetailState, post: Option<Blog>, list: Option<seq<Blog>>): (r: DetailState)
    ensures !r.loading
    ensures post.Some? ==> r.blog == post
    ensures post.None? ==> r.blog == st.blog && r.related == st.related
  {
    match post
    case None => st.(loading := false)
    case Some(b) =>
      if b.category != "" && list.Some? then DetailState(Some(b), Related(list.value, b), false)
      else DetailState(Some(b), st.related, false)
  }

  /** `fetchBlog()` as intended: the page shows the post the slug names, or
      none, with the related posts of that post only. */
  function FetchBlog(st: DetailState, post: Option<Blog>, list: Option<seq<Blog>>): (r: DetailState)
    ensures !r.loading && r.blog == post
    ensures Consistent(r)
    ensures post.Some? && post.value.category != "" && list.Some? ==> r.related == Related(list.value, post.value)
    ensures !(post.Some? && post.value.category != "" && list.Some?) ==> r.related == []
  {
    match post
    case None => DetailState(None, [], false)
    case Some(b) =>
      if b.category != "" && list.Some? then DetailState(Some(b), Related(list.value, b), false)
      else DetailState(Some(b), [], false)
  }

  /** The two agree on a first visit, before anything is on screen. */
  lemma FirstVisitAgrees(post: Option<Blog>, list: Option<seq<Blog>>)
    ensures FetchBlogAsWritten(DetailState(None, [], true), post, list) == FetchBlog(DetailState(None, [], true), post, list)
  {
  }

  /** Two posts of one category, `a` on screen with `b` as its related post.
      Following the link to `b` when the list request fails shows `b` as
      related to itself; and when the request for a post fails, `a` stays on
      screen under the other slug. */
  lemma StaleRelatedAfterNavigation()
    ensures var a := Blog(1, "A", "a", "", "", "web", [], "", 5, true, None, 0, None, 0);
            var b := Blog(2, "B", "b", "", "", "web", [], "", 5, true, None, 0, None, 0);
            var st := DetailState(Some(a), [b], false);
            && Consistent(st)
            && !Consistent(FetchBlogAsWritten(st, Some(b), None))
            && FetchBlogAsWritten(st, None, None).blog == Some(a)
            && Consistent(FetchBlog(st, Some(b), None))
            && FetchBlog(st, None, None).blog.None?
  {
    var a := Blog(1, "A", "a", "", "", "web", [], "", 5, true, None, 0, None, 0);
    var b := Blog(2, "B", "b", "", "", "web", [], "", 5, true, None, 0, None, 0);
    var st := DetailState(Some(a), [b], false);
    assert RelatedTo(a, st.related[0]);
    var shown := FetchBlogAsWritten(st, Some(b), None);
    assert shown.related[0] == b && !RelatedTo(b, b);
  }
}
