/** The route table of shop/urls.py and Django's resolution of a request
    path (without its leading slash) against it: the routes are tried in
    order and the first whose pattern matches the whole path wins. */
module Urls {
  import opened Wrappers
  import opened Numerals

  datatype View =
    | IndexView | AboutView | CatalogView | ProductDetailView | WorksView
    | ContactView | OrderView | OrderSuccessView | AdditionalServicesView

  /** A `path()` pattern: fixed text, or fixed text around one `<int:pk>`. */
  datatype Pattern = Exact(text: string) | IntParam(prefix: string, suffix: string)

  datatype Route = Route(pattern: Pattern, view: View, name: string)

  /** `urlpatterns`. */
  const UrlPatterns: seq<Route> := [
    Route(Exact(""), IndexView, "index"),
    Route(Exact("about/"), AboutView, "about"),
    Route(Exact("catalog/"), CatalogView, "catalog"),
    Route(IntParam("product/", "/"), ProductDetailView, "product_detail"),
    Route(Exact("works/"), WorksView, "works"),
    Route(Exact("contact/"), ContactView, "contact"),
    Route(Exact("order/"), OrderView, "order"),
    Route(Exact("order/success/"), OrderSuccessView, "order_success"),
    Route(Exact("additional-services/"), AdditionalServicesView, "additional_services")
  ]

  /** The segment an IntParam pattern captures from path, when the path has
      the prefix and the suffix around at least one character. */
  function Captured(prefix: string, suffix: string, path: string): Option<string>
  {
    if |path| > |prefix| + |suffix| && path[..|prefix|] == prefix && path[|path| - |suffix|..] == suffix
    then Some(path[|prefix|..|path| - |suffix|])
    else None
  }

  /** Whether a pattern matches the whole path; the int converter accepts a
      non-empty run of ASCII digits (`[0-9]+`). */
  predicate Matches(p: Pattern, path: string)
  {
    match p
    case Exact(text) => path == text
    case IntParam(prefix, suffix) =>
      var seg := Captured(prefix, suffix, path);
      seg.Some? && IsDigits(seg.value)
  }

  /** The keyword arguments a matching pattern passes to its view. */
  function Argument(p: Pattern, path: string): Option<nat>
    requires Matches(p, path)
  {
    match p
    case Exact(_) => None
    case IntParam(prefix, suffix) => Some(ParseDigits(Captured(prefix, suffix, path).value))
  }

  /** A resolved path: the view, the route name, and `pk` if any. */
  datatype ResolverMatch = ResolverMatch(view: View, name: string, pk: Option<nat>)

  /** The index of the first route whose pattern matches path. */
  function FirstMatch(routes: seq<Route>, path: string): (r: Option<nat>)
    ensures r.None? <==> forall i :: 0 <= i < |routes| ==> !Matches(routes[i].pattern, path)
    ensures r.Some? ==> r.value < |routes| && Matches(routes[r.value].pattern, path) &&
                        forall k :: 0 <= k < r.value ==> !Matches(routes[k].pattern, path)
  {
    if routes == [] then None
    else if Matches(routes[0].pattern, path) then Some(0)
    else
      var r := FirstMatch(routes[1..], path);
      assert forall i :: 1 <= i < |routes| ==> routes[i] == routes[1..][i - 1];
      if r.None? then None else Some(r.value + 1)
  }

  /** Django's `resolve(path)` against `urlpatterns`: None is a 404. */
  function Resolve(path: string): Option<ResolverMatch>
  {
    match FirstMatch(UrlPatterns, path)
    case None => None
    case Some(i) =>
      var route := UrlPatterns[i];
      Some(ResolverMatch(route.view, route.name, Argument(route.pattern, path)))
  }

  /** Nine routes; no two share a name or a pattern. */
  lemma RouteTableDistinct()
    ensures |UrlPatterns| == 9
    ensures forall i, j :: 0 <= i < j < |UrlPatterns| ==> UrlPatterns[i].name != UrlPatterns[j].name
    ensures forall i, j :: 0 <= i < j < |UrlPatterns| ==> UrlPatterns[i].pattern != UrlPatterns[j].pattern
  {
  }

  /** Every route but `product_detail` is fixed text that no product path
      (longer than nine characters, starting with `product/`) can equal. */
  lemma ExactRoutesAreNotProductPaths(k: nat)
    requires k < |UrlPatterns| && k != 3
    ensures UrlPatterns[k].pattern.Exact?
    ensures |UrlPatterns[k].pattern.text| <= 9 || UrlPatterns[k].pattern.text[..8] != "product/"
  {
    assert "order/success/"[..8] == "order/su";
    assert "additional-services/"[..8] == "addition";
  }

  /** No path matches two routes, so the order of the table never decides
      which view serves a path. */
  lemma AtMostOneRouteMatches(path: string, i: nat, j: nat)
    requires i < j < |UrlPatterns|
    ensures !(Matches(UrlPatterns[i].pattern, path) && Matches(UrlPatterns[j].pattern, path))
  {
    if i == 3 || j == 3 {
      ExactRoutesAreNotProductPaths(if i == 3 then j else i);
    } else {
      RouteTableDistinct();
      ExactRoutesAreNotProductPaths(i);
      ExactRoutesAreNotProductPaths(j);
    }
  }

  /** `product/<digits>/` resolves to `product_detail` with the integer the
      digits denote (leading zeros allowed, as `int()` reads them). */
  lemma ResolveProductPath(d: string)
    requires IsDigits(d)
    ensures Resolve("product/" + d + "/") == Some(ResolverMatch(ProductDetailView, "product_detail", Some(ParseDigits(d))))
  {
    var path := "product/" + d + "/";
    assert path[..8] == "product/" && path[|path| - 1..] == "/" && path[8..|path| - 1] == d;
    assert Matches(UrlPatterns[3].pattern, path);
    forall i | 0 <= i < |UrlPatterns| && i != 3 ensures !Matches(UrlPatterns[i].pattern, path) {
      AtMostOneRouteMatches(path, if i < 3 then i else 3, if i < 3 then 3 else i);
    }
  }

  /** In particular the decimal numeral of any pk reaches that pk. */
  lemma ResolveProductPk(pk: nat)
    ensures Resolve("product/" + Digits(pk) + "/") == Some(ResolverMatch(ProductDetailView, "product_detail", Some(pk)))
  {
    ResolveProductPath(Digits(pk));
    ParseDigitsOfDigits(pk);
  }

  /** Only a digit run reaches `product_detail`: a path with anything else
      between `product/` and `/` resolves to nothing. */
  lemma ProductPathNeedsDigits(d: string)
    requires !IsDigits(d)
    ensures Resolve("product/" + d + "/") == None
  {
    var path := "product/" + d + "/";
    if |path| > 9 {
      assert path[8..|path| - 1] == d;
    }
    forall i | 0 <= i < |UrlPatterns| ensures !Matches(UrlPatterns[i].pattern, path) {
      if i != 3 {
        ExactRoutesAreNotProductPaths(i);
        if |path| > 9 {
          assert path[..8] == "product/";
        }
      }
    }
  }

  /** The empty path is the index. */
  lemma EmptyPathIsIndex()
    ensures Resolve("") == Some(ResolverMatch(IndexView, "index", None))
  {
    assert Matches(UrlPatterns[0].pattern, "");
  }

  /** `order/` is the order form. */
  lemma OrderPathResolves()
    ensures Resolve("order/") == Some(ResolverMatch(OrderView, "order", None))
  {
    assert Matches(UrlPatterns[6].pattern, "order/");
    forall i | 0 <= i < 6 ensures !Matches(UrlPatterns[i].pattern, "order/") {
      AtMostOneRouteMatches("order/", i, 6);
    }
  }

  /** `order/success/` is its own view, distinct from `order/`. */
  lemma OrderSuccessPathResolves()
    ensures Resolve("order/success/") == Some(ResolverMatch(OrderSuccessView, "order_success", None))
  {
    assert Matches(UrlPatterns[7].pattern, "order/success/");
    forall i | 0 <= i < 7 ensures !Matches(UrlPatterns[i].pattern, "order/success/") {
      AtMostOneRouteMatches("order/success/", i, 7);
    }
  }
}
