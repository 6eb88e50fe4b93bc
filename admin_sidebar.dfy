/** The admin sidebar: which navigation entry is highlighted for the current
    path. */
module AdminSidebar {
  import opened Text

  datatype NavItem = NavItem(name: string, href: string)

  const Navigation: seq<NavItem> := [
    NavItem("Dashboard", "/"), NavItem("Hizmetler", "/services"), NavItem("Projeler", "/projects"),
    NavItem("Blog", "/blogs"), NavItem("Mesajlar", "/contacts"), NavItem("Ayarlar", "/settings")]

  /** `isActive(path)`: the root entry only on the root itself, any other
      entry on every path under it. */
  predicate IsActive(pathname: string, href: string) {
    if href == "/" then pathname == "/" else StartsWith(pathname, href)
  }

  /** The indices of the highlighted entries. */
  function ActiveEntries(pathname: string): (r: set<nat>)
    ensures forall i: nat :: i in r <==> i < |Navigation| && IsActive(pathname, Navigation[i].href)
  {
    set i: nat | i < |Navigation| && IsActive(pathname, Navigation[i].href)
  }

  /** No entry's href other than the root's is a prefix of another's. */
  lemma HrefsArePrefixFree(i: nat, j: nat)
    requires 0 < i < |Navigation| && 0 < j < |Navigation| && i != j
    ensures !StartsWith(Navigation[i].href, Navigation[j].href)
  {
    var heads := ["/ser", "/pro", "/blo", "/con", "/set"];
    forall k | 0 < k < |Navigation| ensures |Navigation[k].href| >= 4 && Navigation[k].href[..4] == heads[k - 1] {
    }
    PrefixSharesHead(Navigation[i].href, Navigation[j].href, 4);
  }

  lemma PrefixSharesHead(a: string, b: string, n: nat)
    requires n <= |a| && n <= |b|
    ensures StartsWith(a, b) ==> a[..n] == b[..n]
  {
  }

  /** At most one entry is highlighted, whatever the path. */
  lemma {:induction false} AtMostOneActive(pathname: string, i: nat, j: nat)
    requires i < |Navigation| && j < |Navigation|
    requires IsActive(pathname, Navigation[i].href) && IsActive(pathname, Navigation[j].href)
    ensures i == j
  {
    if i != j && i != 0 && j != 0 {
      PrefixesAreOrdered(pathname, Navigation[i].href, Navigation[j].href);
      HrefsArePrefixFree(i, j);
      HrefsArePrefixFree(j, i);
    }
  }

  /** On the root only the Dashboard is highlighted; under `/services` (for
      example `/services/x`) only Hizmetler is. */
  lemma RootOnlyDashboard(rest: string)
    ensures ActiveEntries("/") == {0}
    ensures ActiveEntries("/services" + rest) == {1}
  {
    assert IsActive("/", Navigation[0].href);
    forall i: nat | 0 < i < |Navigation| ensures !IsActive("/", Navigation[i].href) {
      assert |Navigation[i].href| > 1;
    }
    var p := "/services" + rest;
    assert IsActive(p, Navigation[1].href) by {
      assert p[..|"/services"|] == "/services";
    }
    forall i: nat | i < |Navigation| && IsActive(p, Navigation[i].href) ensures i == 1 {
      AtMostOneActive(p, i, 1);
    }
  }
}
