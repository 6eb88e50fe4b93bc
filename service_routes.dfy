/** The service routes: the public list and slug lookup over active
    services, the admin list, and create, update and delete. The unique index
    on `slug` is part of the store. */
module ServiceRoutes {
  import opened Common
  import opened Text
  import opened ServiceModel
  import Seqs
  import Store

  function ServiceId(s: Service): nat { s.id }

  /** `sort({ order: 1, createdAt: -1 })`. */
  function DisplayOrder(s: Service): Seqs.Key { Seqs.Key(s.order, -s.createdAt) }

  predicate UniqueSlugs(ss: seq<Service>) {
    forall i, j :: 0 <= i < |ss| && 0 <= j < |ss| && i != j ==> ss[i].slug != ss[j].slug
  }

  /** No service other than the one at `skip` has this slug. */
  predicate SlugFree(ss: seq<Service>, slug: string, skip: int) {
    forall j :: 0 <= j < |ss| && j != skip ==> ss[j].slug != slug
  }

  /** Adding a record with a free slug, replacing one by a record whose
      slug no other record has, or removing one keeps the slugs unique. */
  lemma SlugsKept(ss: seq<Service>, i: nat, v: Service)
    requires UniqueSlugs(ss)
    ensures SlugFree(ss, v.slug, -1) ==> UniqueSlugs(ss + [v])
    ensures i < |ss| && SlugFree(ss, v.slug, i) ==> UniqueSlugs(ss[i := v])
    ensures i < |ss| ==> UniqueSlugs(ss[..i] + ss[i + 1..])
  {
    if i < |ss| {
      var rest := ss[..i] + ss[i + 1..];
      forall a, b | 0 <= a < |rest| && 0 <= b < |rest| && a != b ensures rest[a].slug != rest[b].slug {
        var a' := if a < i then a else a + 1;
        var b' := if b < i then b else b + 1;
        assert rest[a] == ss[a'] && rest[b] == ss[b'];
      }
    }
  }

  /** `GET /`: the active services, in display order. */
  function PublicList(ss: seq<Service>): (r: seq<Service>)
    ensures Seqs.SortedBy(r, DisplayOrder)
    ensures forall s :: multiset(r)[s] == if s.isActive then multiset(ss)[s] else 0
    ensures forall i :: 0 <= i < |r| ==> r[i].isActive && r[i] in ss
  {
    Seqs.Query(ss, (s: Service) => s.isActive, DisplayOrder)
  }

  /** `GET /admin/all`: every service, inactive ones included, in the same order. */
  function AdminList(ss: seq<Service>): (r: seq<Service>)
    ensures Seqs.SortedBy(r, DisplayOrder)
    ensures multiset(r) == multiset(ss)
  {
    var r := Seqs.Query(ss, (s: Service) => true, DisplayOrder);
    assert forall s :: multiset(r)[s] == multiset(ss)[s];
    r
  }

  /** The public list is the admin list without the inactive services. */
  lemma PublicIsActiveAdmin(ss: seq<Service>, s: Service)
    ensures multiset(PublicList(ss))[s] == if s.isActive then multiset(AdminList(ss))[s] else 0
  {
  }

  /** `findOne({ slug, isActive: true })`; the slug path lowercases the value
      it is compared with. */
  function FindActive(ss: seq<Service>, slug: string): (r: Option<Service>)
    ensures r.Some? ==> r.value in ss && r.value.isActive && r.value.slug == ToLower(slug)
    ensures r.None? <==> forall i :: 0 <= i < |ss| ==> !(ss[i].isActive && ss[i].slug == ToLower(slug))
  {
    var key := ToLower(slug);
    match Store.FindFirst(ss, (s: Service) => s.isActive && s.slug == key)
    case None => None
    case Some(i) => Some(ss[i])
  }

  /** Appending a valid record with the next id and a free slug keeps the
      store's invariant. */
  lemma AppendKeepsStore(ps: seq<Service>, next: nat, v: Service)
    requires Store.UniqueIds(ps, ServiceId) && Store.IdsBelow(ps, ServiceId, next)
    requires Store.AllSatisfy(ps, ServiceValid) && UniqueSlugs(ps)
    requires v.id == next && ServiceValid(v) && SlugFree(ps, v.slug, -1)
    ensures Store.UniqueIds(ps + [v], ServiceId) && Store.IdsBelow(ps + [v], ServiceId, next + 1)
    ensures Store.AllSatisfy(ps + [v], ServiceValid) && UniqueSlugs(ps + [v])
  {
    Store.AppendFreshId(ps, ServiceId, next, v);
    Store.AllSatisfyKept(ps, ServiceValid, 0, v);
    SlugsKept(ps, 0, v);
  }

  /** The service collection. */
  class ServiceStore {
    var services: seq<Service>
    var nextId: nat

    ghost predicate Valid()
      reads this
    {
      && Store.UniqueIds(services, ServiceId)
      && Store.IdsBelow(services, ServiceId, nextId)
      && Store.AllSatisfy(services, ServiceValid)
      && UniqueSlugs(services)
    }

    constructor ()
      ensures Valid() && services == []
    {
      services := [];
      nextId := 0;
    }

    /** `GET /:slug` */
    function BySlug(slug: string): (r: Response<Service>)
      reads this
      ensures r.Success? ==> r.data in services && r.data.isActive && r.data.slug == ToLower(slug) && r.status == 200
      ensures r.Success? <==> exists i :: 0 <= i < |services| && services[i].isActive && services[i].slug == ToLower(slug)
      ensures r.Success? ==> r.data == FindActive(services, slug).value
      ensures r.Failure? ==> r == Failure(404, "Service not found")
    {
      match FindActive(services, slug)
      case None => Failure(404, "Service not found")
      case Some(s) => Success(200, s)
    }

    /** `POST /`: a valid body with an unused slug adds exactly one service. */
    method Create(body: ServiceBody, now: int) returns (r: Response<Service>)
      requires Valid()
      modifies this
      ensures Valid()
      ensures var s := NewService(body, old(nextId), now);
              if s.Some? && SlugFree(old(services), s.value.slug, -1) then
                services == old(services) + [s.value] && r == Success(201, s.value)
              else
                services == old(services) && r == Failure(500, "Server error")
    {
      var s := NewService(body, nextId, now);
      if s.None? || !SlugFree(services, s.value.slug, -1) {
        return Failure(500, "Server error");
      }
      Append(s.value);
      r := Success(201, s.value);
    }

    /** Stores a valid record that has the next id and a free slug. */
    method Append(v: Service)
      requires Valid() && v.id == nextId && ServiceValid(v) && SlugFree(services, v.slug, -1)
      modifies this
      ensures Valid() && services == old(services) + [v] && nextId == old(nextId) + 1
    {
      AppendKeepsStore(services, nextId, v);
      services := services + [v];
      nextId := nextId + 1;
    }

    /** `PUT /:id` (`findByIdAndUpdate` with validators): the body is
        validated first, so an invalid body is a 500 even for an unknown id;
        then an unknown id is a 404; a slug taken by another service fails
        on the unique index. */
    method Update(id: nat, body: ServiceBody) returns (r: Response<Service>)
      requires Valid()
      modifies this
      ensures Valid()
      ensures !FieldsAccepted(body) ==> r == Failure(500, "Server error") && services == old(services)
      ensures FieldsAccepted(body) ==>
        match Store.IndexOfId(old(services), ServiceId, id)
        case None => r == Failure(404, "Service not found") && services == old(services)
        case Some(i) =>
          var s := ApplyBody(old(services)[i], body);
          if SlugFree(old(services), s.slug, i) then
            services == old(services)[i := s] && r == Success(200, s)
          else
            services == old(services) && r == Failure(500, "Server error")
    {
      if !FieldsAccepted(body) {
        return Failure(500, "Server error");
      }
      var found := Store.IndexOfId(services, ServiceId, id);
      if found.None? {
        return Failure(404, "Service not found");
      }
      var i := found.value;
      var s := ApplyBody(services[i], body);
      if !SlugFree(services, s.slug, i) {
        return Failure(500, "Server error");
      }
      ApplyBodyKeepsValid(services[i], body);
      Store.ReplaceKeepsIds(services, ServiceId, i, s);
      Store.AllSatisfyKept(services, ServiceValid, i, s);
      SlugsKept(services, i, s);
      services := services[i := s];
      r := Success(200, s);
    }

    /** `DELETE /:id` */
    method Delete(id: nat) returns (r: Response<string>)
      requires Valid()
      modifies this
      ensures Valid()
      ensures match Store.IndexOfId(old(services), ServiceId, id)
        case None => r == Failure(404, "Service not found") && services == old(services)
        case Some(i) => && services == old(services)[..i] + old(services)[i + 1..]
                        && r == Success(200, "Service deleted successfully")
      ensures forall s :: s in services <==> s in old(services) && s.id != id
    {
      var found := Store.IndexOfId(services, ServiceId, id);
      if found.None? {
        return Failure(404, "Service not found");
      }
      var i := found.value;
      Store.RemoveAtExactly(services, ServiceId, i);
      Store.AllSatisfyKept(services, ServiceValid, i, services[i]);
      SlugsKept(services, i, services[i]);
      services := services[..i] + services[i + 1..];
      r := Success(200, "Service deleted successfully");
    }
  }
}
