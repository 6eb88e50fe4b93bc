/** The public blog list: the category buttons built from the published
    posts, the category filter, and the empty-list message. */
module SiteBlogPage {
  import opened Text
  import Seqs
  import opened BlogRoutes

  // ---------------------------------------------------- unique values

  predicate Distinct(s: seq<string>) {
    forall i, j :: 0 <= i < j < |s| ==> s[i] != s[j]
  }

  /** The index of the first occurrence of `x` in `s`. */
  function First(s: seq<string>, x: string): (k: nat)
    requires x in s
    ensures k < |s| && s[k] == x
    ensures forall m :: 0 <= m < k ==> s[m] != x
  {
    if s[0] == x then 0 else 1 + First(s[1..], x)
  }

  /** The first occurrence is the only index that is an occurrence with none
      before it. */
  lemma FirstUnique(s: seq<string>, x: string, k: nat)
    requires k < |s| && s[k] == x
    requires forall m :: 0 <= m < k ==> s[m] != x
    ensures First(s, x) == k
  {
  }

  /** A prefix that holds `x` holds its first occurrence. */
  lemma FirstOfPrefix(s: seq<string>, n: nat, x: string)
    requires n <= |s| && x in s[..n]
    ensures x in s && First(s[..n], x) == First(s, x)
  {
    var k := First(s[..n], x);
    FirstUnique(s, x, k);
  }

  /** `[...new Set(s)]`: each value once, where it first appears. */
  function Dedup(s: seq<string>): (r: seq<string>)
    ensures forall x :: x in r <==> x in s
    ensures Distinct(r)
    decreases |s|
  {
    if s == [] then []
    else
      var d := Dedup(s[..|s| - 1]);
      var x := s[|s| - 1];
      assert forall y :: y in s <==> y in s[..|s| - 1] || y == x by {
        assert s == s[..|s| - 1] + [x];
      }
      if x in d then d else d + [x]
  }

  /** The values come out in the order of their first appearance. */
  lemma {:induction false} DedupInFirstOrder(s: seq<string>)
    ensures forall i, j :: 0 <= i < j < |Dedup(s)| ==> First(s, Dedup(s)[i]) < First(s, Dedup(s)[j])
    decreases |s|
  {
    if s != [] {
      var p := s[..|s| - 1];
      var x := s[|s| - 1];
      var d := Dedup(p);
      DedupInFirstOrder(p);
      assert p == s[..|p|];
      forall y | y in d ensures First(s, y) == First(p, y) && First(p, y) < |p| {
        FirstOfPrefix(s, |p|, y);
      }
      if x !in d {
        FirstUnique(s, x, |p|);
      }
    }
  }

  // ------------------------------------------------------- categories

  /** `publishedBlogs.map(blog => blog.category)`. */
  function CategoryList(blogs: seq<Blog>): (r: seq<string>)
    ensures |r| == |blogs|
    ensures forall i :: 0 <= i < |blogs| ==> r[i] == blogs[i].category
  {
    if blogs == [] then [] else [blogs[0].category] + CategoryList(blogs[1..])
  }

  /** The category buttons: `all`, then every category of the posts once, in
      the order in which the posts first use it. */
  function Categories(blogs: seq<Blog>): (r: seq<string>)
    ensures |r| >= 1 && r[0] == "all"
    ensures forall i :: 0 <= i < |blogs| ==> blogs[i].category in r[1..]
    ensures forall c :: c in r[1..] ==> c in CategoryList(blogs)
    ensures Distinct(r[1..])
    ensures forall i, j :: 1 <= i < j < |r| ==> First(CategoryList(blogs), r[i]) < First(CategoryList(blogs), r[j])
  {
    var cats := CategoryList(blogs);
    DedupInFirstOrder(cats);
    var r := ["all"] + Dedup(cats);
    assert r[1..] == Dedup(cats);
    r
  }

  // ----------------------------------------------------------- filter

  predicate InCategory(selected: string, b: Blog) {
    b.category == selected
  }

  /** `filteredBlogs`: every post for `all`, else the posts of the selected
      category. */
  function FilteredBlogs(blogs: seq<Blog>, selected: string): (r: seq<Blog>)
    ensures selected == "all" ==> r == blogs
    ensures selected != "all" ==> forall i :: 0 <= i < |r| ==> r[i] in blogs && r[i].category == selected
    ensures selected != "all" ==> forall i :: 0 <= i < |blogs| && blogs[i].category == selected ==> blogs[i] in r
  {
    if selected == "all" then blogs else Seqs.Filter(blogs, b => InCategory(selected, b))
  }

  /** The filter keeps each post of the category as often as the list holds
      it, and keeps the list's order: filtering two lists one after the other
      is filtering each. */
  lemma FilterKeepsCountAndOrder(a: seq<Blog>, b: seq<Blog>, selected: string, x: Blog)
    ensures selected != "all" ==> multiset(FilteredBlogs(a, selected))[x] == if x.category == selected then multiset(a)[x] else 0
    ensures FilteredBlogs(a + b, selected) == FilteredBlogs(a, selected) + FilteredBlogs(b, selected)
  {
    if selected != "all" {
      Seqs.FilterMultiset(a, b => InCategory(selected, b), x);
      Seqs.FilterConcat(a, b, b => InCategory(selected, b));
    }
  }

  /** Every category button finds at least one post, and so does `all` when
      there are posts: the empty message shows only for an empty blog. */
  lemma EveryButtonFindsPosts(blogs: seq<Blog>, i: nat)
    requires i < |Categories(blogs)|
    requires blogs != []
    ensures FilteredBlogs(blogs, Categories(blogs)[i]) != []
  {
    var r := Categories(blogs);
    var c := r[i];
    if c != "all" {
      assert c in r[1..] by {
        assert r[1..][i - 1] == c;
      }
      var cats := CategoryList(blogs);
      var k :| 0 <= k < |cats| && cats[k] == c;
      assert blogs[k] in FilteredBlogs(blogs, c);
    }
  }

  /** The message shown when the filter finds no post. */
  function EmptyMessage(selected: string): (m: string)
    ensures selected == "all" ==> m == "Henüz blog yazısı yok."
    ensures selected != "all" ==> StartsWith(m, selected)
  {
    if selected == "all" then "Henüz blog yazısı yok." else selected + " kategorisinde yazı bulunamadı."
  }

  /** Different categories get different messages, so the message names the
      category. */
  lemma EmptyMessageNamesCategory(a: string, b: string)
    requires a != "all" && b != "all"
    ensures EmptyMessage(a) == EmptyMessage(b) ==> a == b
  {
    if EmptyMessage(a) == EmptyMessage(b) {
      assert |a| == |b|;
      assert a == EmptyMessage(a)[..|a|];
      assert b == EmptyMessage(b)[..|b|];
    }
  }
}
