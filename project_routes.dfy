/** The project routes: the public list and slug lookup over active
    projects, the admin list, and create, update and delete. The unique index
    on `slug` is part of the store. */
module ProjectRoutes {
  import opened Common
  import opened Text
  import opened ProjectModel
  import Seqs
  import Store

  function ProjectId(p: Project): nat { p.id }

  /** `sort({ order: 1, createdAt: -1 })`. */
  function DisplayOrder(p: Project): Seqs.Key { Seqs.Key(p.order, -p.createdAt) }

  predicate UniqueSlugs(ps: seq<Project>) {
    forall i, j :: 0 <= i < |ps| && 0 <= j < |ps| && i != j ==> ps[i].slug != ps[j].slug
  }

  /** No project other than the one at `skip` has this slug. */
  predicate SlugFree(ps: seq<Project>, slug: string, skip: int) {
    forall j :: 0 <= j < |ps| && j != skip ==> ps[j].slug != slug
  }

  /** The filter of the public list: active, of the category when one is
      given, and featured when `featured` is exactly the string `'true'`. */
  predicate PublicMatch(category: Option<string>, onlyFeatured: bool, p: Project) {
    && p.isActive
    && (Truthy(category) ==> CategoryName(p.category) == category.value)
    && (onlyFeatured ==> p.isFeatured)
  }

  /** Adding a record with a free slug, replacing one by a record whose
      slug no other record has, or removing one keeps the slugs unique. */
  lemma SlugsKept(ps: seq<Project>, i: nat, v: Project)
    requires UniqueSlugs(ps)
    ensures SlugFree(ps, v.slug, -1) ==> UniqueSlugs(ps + [v])
    ensures i < |ps| && SlugFree(ps, v.slug, i) ==> UniqueSlugs(ps[i := v])
    ensures i < |ps| ==> UniqueSlugs(ps[..i] + ps[i + 1..])
  {
    if i < |ps| {
      var rest := ps[..i] + ps[i + 1..];
      forall a, b | 0 <= a < |rest| && 0 <= b < |rest| && a != b ensures rest[a].slug != rest[b].slug {
        var a' := if a < i then a else a + 1;
        var b' := if b < i then b else b + 1;
        assert rest[a] == ps[a'] && rest[b] == ps[b'];
      }
    }
  }

  /** `GET /` */
  function PublicList(ps: seq<Project>, category: Option<string>, featured: Option<string>): (r: seq<Project>)
    ensures Seqs.SortedBy(r, DisplayOrder)
    ensures forall p :: multiset(r)[p] == if PublicMatch(category, featured == Some("true"), p) then multiset(ps)[p] else 0
    ensures forall i :: 0 <= i < |r| ==> r[i].isActive
  {
    Seqs.Query(ps, p => PublicMatch(category, featured == Some("true"), p), DisplayOrder)
  }

  /** Any `featured` value other than `'true'` leaves featured and
      non-featured projects alike. */
  lemma FeaturedOnlyForTrue(ps: seq<Project>, category: Option<string>, featured: Option<string>)
    requires featured != Some("true")
    ensures PublicList(ps, category, featured) == PublicList(ps, category, None)
  {
  }

  /** `GET /admin/all`: every project, inactive ones included, in the same order. */
  function AdminList(ps: seq<Project>): (r: seq<Project>)
    ensures Seqs.SortedBy(r, DisplayOrder)
    ensures multiset(r) == multiset(ps)
  {
    var r := Seqs.Query(ps, p => true, DisplayOrder);
    assert forall p :: multiset(r)[p] == multiset(ps)[p];
    r
  }

  /** `findOne({ slug, isActive: true })`; the slug path lowercases the value
      it is compared with. */
  function FindActive(ps: seq<Project>, slug: string): (r: Option<Project>)
    ensures r.Some? ==> r.value in ps && r.value.isActive && r.value.slug == ToLower(slug)
    ensures r.None? <==> forall i :: 0 <= i < |ps| ==> !(ps[i].isActive && ps[i].slug == ToLower(slug))
  {
    var key := ToLower(slug);
    match Store.FindFirst(ps, (p: Project) => p.isActive && p.slug == key)
    case None => None
    case Some(i) => Some(ps[i])
  }

  /** The slug lookup does not depend on the letter case of the request. */
  lemma FindActiveIgnoresCase(ps: seq<Project>, slug: string)
    ensures FindActive(ps, ToLower(slug)) == FindActive(ps, slug)
  {
    ToLowerIdempotent(slug);
  }

  /** Appending a valid record with the next id and a free slug keeps the
      store's invariant. */
  lemma AppendKeepsStore(ps: seq<Project>, next: nat, v: Project)
    requires Store.UniqueIds(ps, ProjectId) && Store.IdsBelow(ps, ProjectId, next)
    requires Store.AllSatisfy(ps, ProjectValid) && UniqueSlugs(ps)
    requires v.id == next && ProjectValid(v) && SlugFree(ps, v.slug, -1)
    ensures Store.UniqueIds(ps + [v], ProjectId) && Store.IdsBelow(ps + [v], ProjectId, next + 1)
    ensures Store.AllSatisfy(ps + [v], ProjectValid) && UniqueSlugs(ps + [v])
  {
    Store.AppendFreshId(ps, ProjectId, next, v);
    Store.AllSatisfyKept(ps, ProjectValid, 0, v);
    SlugsKept(ps, 0, v);
  }

  /** The project collection. */
  class ProjectStore {
    var projects: seq<Project>
    var nextId: nat

    ghost predicate Valid()
      reads this
    {
      && Store.UniqueIds(projects, ProjectId)
      && Store.IdsBelow(projects, ProjectId, nextId)
      && Store.AllSatisfy(projects, ProjectValid)
      && UniqueSlugs(projects)
    }

    constructor ()
      ensures Valid() && projects == []
    {
      projects := [];
      nextId := 0;
    }

    /** `GET /:slug` */
    function BySlug(slug: string): (r: Response<Project>)
      reads this
      ensures r.Success? ==> r.data in projects && r.data.isActive && r.data.slug == ToLower(slug) && r.status == 200
      ensures r.Success? <==> exists i :: 0 <= i < |projects| && projects[i].isActive && projects[i].slug == ToLower(slug)
      ensures r.Success? ==> r.data == FindActive(projects, slug).value
      ensures r.Failure? ==> r == Failure(404, "Project not found")
    {
      match FindActive(projects, slug)
      case None => Failure(404, "Project not found")
      case Some(p) => Success(200, p)
    }

    /** `POST /`: a valid body with an unused slug adds exactly one project. */
    method Create(body: ProjectBody, now: int) returns (r: Response<Project>)
      requires Valid()
      modifies this
      ensures Valid()
      ensures var p := NewProject(body, old(nextId), now);
              if p.Some? && SlugFree(old(projects), p.value.slug, -1) then
                projects == old(projects) + [p.value] && r == Success(201, p.value)
              else
                projects == old(projects) && r == Failure(500, "Server error")
    {
      var p := NewProject(body, nextId, now);
      if p.None? || !SlugFree(projects, p.value.slug, -1) {
        return Failure(500, "Server error");
      }
      Append(p.value);
      r := Success(201, p.value);
    }

    /** Stores a valid record that has the next id and a free slug. */
    method Append(v: Project)
      requires Valid() && v.id == nextId && ProjectValid(v) && SlugFree(projects, v.slug, -1)
      modifies this
      ensures Valid() && projects == old(projects) + [v] && nextId == old(nextId) + 1
    {
      AppendKeepsStore(projects, nextId, v);
      projects := projects + [v];
      nextId := nextId + 1;
    }

    /** `PUT /:id` (`findByIdAndUpdate` with validators): the body is
        validated first, so an invalid body is a 500 even for an unknown id;
        then an unknown id is a 404; a slug taken by another project fails
        on the unique index. */
    method Update(id: nat, body: ProjectBody) returns (r: Response<Project>)
      requires Valid()
      modifies this
      ensures Valid()
      ensures !FieldsAccepted(body) ==> r == Failure(500, "Server error") && projects == old(projects)
      ensures FieldsAccepted(body) ==>
        match Store.IndexOfId(old(projects), ProjectId, id)
        case None => r == Failure(404, "Project not found") && projects == old(projects)
        case Some(i) =>
          var p := ApplyBody(old(projects)[i], body);
          if SlugFree(old(projects), p.slug, i) then
            projects == old(projects)[i := p] && r == Success(200, p)
          else
            projects == old(projects) && r == Failure(500, "Server error")
    {
      if !FieldsAccepted(body) {
        return Failure(500, "Server error");
      }
      var found := Store.IndexOfId(projects, ProjectId, id);
      if found.None? {
        return Failure(404, "Project not found");
      }
      var i := found.value;
      var p := ApplyBody(projects[i], body);
      if !SlugFree(projects, p.slug, i) {
        return Failure(500, "Server error");
      }
      ApplyBodyKeepsValid(projects[i], body);
      Store.ReplaceKeepsIds(projects, ProjectId, i, p);
      Store.AllSatisfyKept(projects, ProjectValid, i, p);
      SlugsKept(projects, i, p);
      projects := projects[i := p];
      r := Success(200, p);
    }

    /** `DELETE /:id` */
    method Delete(id: nat) returns (r: Response<string>)
      requires Valid()
      modifies this
      ensures Valid()
      ensures match Store.IndexOfId(old(projects), ProjectId, id)
        case None => r == Failure(404, "Project not found") && projects == old(projects)
        case Some(i) => && projects == old(projects)[..i] + old(projects)[i + 1..]
                        && r == Success(200, "Project deleted successfully")
      ensures forall p :: p in projects <==> p in old(projects) && p.id != id
    {
      var found := Store.IndexOfId(projects, ProjectId, id);
      if found.None? {
        return Failure(404, "Project not found");
      }
      var i := found.value;
      Store.RemoveAtExactly(projects, ProjectId, i);
      Store.AllSatisfyKept(projects, ProjectValid, i, projects[i]);
      SlugsKept(projects, i, projects[i]);
      projects := projects[..i] + projects[i + 1..];
      r := Success(200, "Project deleted successfully");
    }
  }
}
