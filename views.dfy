/** The views of shop/views.py as functions (and, where the source loops or
    writes, methods) over the abstract store. Rendering, redirects and the
    messages framework are replaced by response datatypes. */
module Views {
  import opened Wrappers
  import opened Price
  import opened Ordering
  import opened Models
  import opened Forms

  /** `index`: the first three products, `Product.objects.all()[:3]`. */
  function Index(s: Store): (r: seq<Product>)
    ensures |r| == if |s.products| < 3 then |s.products| else 3
    ensures r == s.products[..|r|]
  {
    if |s.products| <= 3 then s.products else s.products[..3]
  }

  /** `about`: `CompanyInfo.objects.first()`; with no `Meta.ordering`,
      `first()` orders by primary key. */
  function About(s: Store): (r: Option<CompanyInfo>)
    ensures r.None? <==> |s.companyInfos| == 0
    ensures r.Some? ==> r.value in s.companyInfos && forall c :: c in s.companyInfos ==> r.value.pk <= c.pk
  {
    FirstByPk(s.companyInfos)
  }

  function FirstByPk(cs: seq<CompanyInfo>): (r: Option<CompanyInfo>)
    ensures r.None? <==> |cs| == 0
    ensures r.Some? ==> r.value in cs && forall c :: c in cs ==> r.value.pk <= c.pk
  {
    if cs == [] then None
    else
      var rest := FirstByPk(cs[1..]);
      assert forall c :: c in cs ==> c == cs[0] || c in cs[1..];
      if rest.Some? && rest.value.pk < cs[0].pk then rest else Some(cs[0])
  }

  /** The views' own copy of the price expression,
      `f"{price:,} ₽".replace(',', ' ')`: it is `format_price`. */
  function ViewFormattedPrice(price: int): (r: string)
    ensures r == FormatPrice(price)
  {
    ReplaceChar(WithCommas(price) + Suffix, ',', ' ')
  }

  /** A product with the `formatted_price` attribute the views attach. */
  datatype ListedProduct = ListedProduct(product: Product, formattedPrice: string)

  /** A tier with its attached `formatted_price`. */
  datatype ListedTier = ListedTier(tier: ProductPrice, formattedPrice: string)

  /** `product.formatted_price = f"..."`: the product and the price text,
      which reads back as the product's price. */
  function ListProduct(p: Product): (r: ListedProduct)
    ensures r.product == p
    ensures r.formattedPrice == FormatPrice(p.price)
  {
    ListedProduct(p, ViewFormattedPrice(p.price))
  }

  /** A listed product's price text reads back as the product's price. */
  lemma ListedProductReadsBack(p: Product)
    ensures ParsePrice(ListProduct(p).formattedPrice) == Some(p.price)
  {
    ParseFormatPrice(p.price);
  }

  /** `price.formatted_price = f"..."` for one tier. */
  function ListTier(t: ProductPrice): (r: ListedTier)
    ensures r.tier == t
    ensures r.formattedPrice == FormatPrice(t.price)
  {
    ListedTier(t, ViewFormattedPrice(t.price))
  }

  /** A listed tier's price text reads back as the tier's price. */
  lemma ListedTierReadsBack(t: ProductPrice)
    ensures ParsePrice(ListTier(t).formattedPrice) == Some(t.price)
  {
    ParseFormatPrice(t.price);
  }

  /** `catalog`: every product, in store order, each with its price
      formatted as `format_price` does. */
  method Catalog(s: Store) returns (rows: seq<ListedProduct>)
    ensures |rows| == |s.products|
    ensures forall i :: 0 <= i < |rows| ==> rows[i] == ListProduct(s.products[i])
  {
    rows := [];
    var i := 0;
    while i < |s.products|
      invariant 0 <= i <= |s.products| && |rows| == i
      invariant forall k :: 0 <= k < i ==> rows[k] == ListProduct(s.products[k])
    {
      rows := rows + [ListProduct(s.products[i])];
      i := i + 1;
    }
  }

  /** `GlobalOption.objects.filter(is_active=True).order_by('category', 'order')`. */
  function OptionKey(o: GlobalOption): SortKey { SortKey(o.category, o.order, 0) }

  function ActiveOptions(s: Store): (r: seq<GlobalOption>)
    ensures forall o :: o in r ==> o.isActive
    ensures multiset(r) == multiset(Filter(s.options, (o: GlobalOption) => o.isActive))
    ensures forall i, j :: 0 <= i < j < |r| ==>
              StrLe(r[i].category, r[j].category) && (r[i].category == r[j].category ==> r[i].order <= r[j].order)
  {
    var r := SortBy(Filter(s.options, (o: GlobalOption) => o.isActive), OptionKey);
    forall o | o in r ensures o.isActive {
      assert o in multiset(r);
    }
    forall i, j | 0 <= i < j < |r|
      ensures StrLe(r[i].category, r[j].category)
    {
      assert KeyLe(OptionKey(r[i]), OptionKey(r[j]));
      if r[i].category == r[j].category {
        StrLeTotal(r[i].category, r[j].category);
      }
    }
    r
  }

  /** An option is listed exactly when it is active, as often as it is stored. */
  lemma ActiveOptionsExactly(s: Store, o: GlobalOption)
    ensures o in ActiveOptions(s) <==> o in s.options && o.isActive
  {
    var r := ActiveOptions(s);
    assert o in r <==> o in multiset(r);
    assert o in s.options <==> o in multiset(s.options);
  }

  /** The option listing both `product_detail` and `additional_services`
      render, with `global_options.count()`. */
  datatype OptionsPage = OptionsPage(options: seq<GlobalOption>, optionsCount: nat)

  /** `additional_services`. */
  function AdditionalServices(s: Store): (r: OptionsPage)
    ensures r.options == ActiveOptions(s) && r.optionsCount == |r.options|
  {
    var options := ActiveOptions(s);
    OptionsPage(options, |options|)
  }

  datatype DetailPage = DetailPage(product: ListedProduct, prices: seq<ListedTier>, options: OptionsPage)

  /** A view's outcome: a page, or the 404 of `get_object_or_404`. */
  datatype Response<T> = NotFound | Page(page: T)

  /** `Product.objects.get(pk=pk)`: the stored product with that key. */
  function FindProduct(products: seq<Product>, pk: nat): (r: Option<Product>)
    ensures r.None? <==> forall i :: 0 <= i < |products| ==> products[i].pk != pk
    ensures r.Some? ==> r.value in products && r.value.pk == pk
  {
    if products == [] then None
    else if products[0].pk == pk then Some(products[0])
    else
      var r := FindProduct(products[1..], pk);
      assert forall i :: 1 <= i < |products| ==> products[i] == products[1..][i - 1];
      r
  }

  /** The loop of `product_detail` attaching `formatted_price` to each tier. */
  method ListTiers(tiers: seq<ProductPrice>) returns (prices: seq<ListedTier>)
    ensures |prices| == |tiers|
    ensures forall i :: 0 <= i < |tiers| ==> prices[i] == ListTier(tiers[i])
  {
    prices := [];
    var i := 0;
    while i < |tiers|
      invariant 0 <= i <= |tiers| && |prices| == i
      invariant forall k :: 0 <= k < i ==> prices[k] == ListTier(tiers[k])
    {
      prices := prices + [ListTier(tiers[i])];
      i := i + 1;
    }
  }

  /** `product_detail(pk)`: 404 for a missing product; otherwise the product
      with its formatted price, its tiers in (order, price) order each with
      its formatted price, and the active options with their count. */
  method ProductDetail(s: Store, pk: nat) returns (r: Response<DetailPage>)
    ensures r.NotFound? <==> !ProductExists(s, pk)
    ensures r.Page? ==>
              var page := r.page;
              && page.product.product in s.products && page.product.product.pk == pk
              && page.product == ListProduct(page.product.product)
              && |page.prices| == |TiersOf(s, pk)|
              && (forall i :: 0 <= i < |page.prices| ==> page.prices[i] == ListTier(TiersOf(s, pk)[i]))
              && page.options == AdditionalServices(s)
  {
    var found := FindProduct(s.products, pk);
    if found.None? {
      return NotFound;
    }
    var product := found.value;
    var tiers := TiersOf(s, pk);
    var options := ActiveOptions(s);
    var listed := ListProduct(product);
    var prices := ListTiers(tiers);
    r := Page(DetailPage(listed, prices, OptionsPage(options, |options|)));
  }

  /** `works`: every photo, newest `created_at` first. */
  function Works(s: Store): (r: seq<WorkPhoto>)
    ensures multiset(r) == multiset(s.photos)
    ensures forall i, j :: 0 <= i < j < |r| ==> r[i].createdAt >= r[j].createdAt
  {
    SortBy(s.photos, (p: WorkPhoto) => SortKey("", -p.createdAt, 0))
  }

  // ----- the order form -----

  datatype Method = Get | Post

  /** The parts of a request the `order` view reads: the method, the query
      string and the posted form. */
  datatype Request = Request(verb: Method, query: map<string, string>, form: Submission)

  datatype FormState = Unbound | Bound(data: Submission, errors: map<Field, ErrorCode>)

  datatype OrderResponse =
    | RedirectToSuccess
    | OrderPage(form: FormState, success: bool, orderDetails: string)

  /** `request.GET.get('details', '')`. */
  function DetailsParam(req: Request): string
  {
    if "details" in req.query then req.query["details"] else ""
  }

  /** `order`: a valid POST creates exactly one OrderRequest whose contact
      fields come from the form and whose `message` is the `details` query
      parameter (the form's own message is dropped), then redirects. A GET
      or an invalid POST creates nothing and re-renders the form with the
      details echoed back. */
  method Order(db: Database, req: Request, now: int, emailOk: string -> bool, captchaOk: string -> bool)
    returns (resp: OrderResponse)
    requires db.Valid()
    modifies db
    ensures db.Valid()
    ensures req.verb == Post && IsValid(req.form, emailOk, captchaOk) ==>
              resp == RedirectToSuccess &&
              db.store == old(db.store).(orders := old(db.store.orders) +
                [OrderRequest(old(db.nextPk), req.form.fio, req.form.phone, req.form.email, DetailsParam(req), "", now)])
    ensures req.verb == Get ==> resp == OrderPage(Unbound, false, DetailsParam(req)) && db.store == old(db.store)
    ensures req.verb == Post && !IsValid(req.form, emailOk, captchaOk) ==>
              resp == OrderPage(Bound(req.form, Errors(req.form, emailOk, captchaOk)), false, DetailsParam(req)) &&
              db.store == old(db.store)
  {
    var orderDetails := if "details" in req.query then req.query["details"] else "";
    var form: FormState;
    if req.verb == Post {
      var errors := Errors(req.form, emailOk, captchaOk);
      form := Bound(req.form, errors);
      if errors == map[] {
        var created := db.CreateOrderRequest(req.form.fio, req.form.phone, req.form.email, orderDetails, now);
        return RedirectToSuccess;
      }
    } else {
      form := Unbound;
    }
    resp := OrderPage(form, false, orderDetails);
  }

  /** A successful order placed later than every stored one heads the
      admin's newest-first listing. */
  lemma PlacedOrderListedFirst(s: Store, req: Request, pk: nat, now: int)
    requires forall p :: p in s.orders ==> p.createdAt < now
    ensures var o := OrderRequest(pk, req.form.fio, req.form.phone, req.form.email, DetailsParam(req), "", now);
            OrderRequestsNewestFirst(s.(orders := s.orders + [o]))[0] == o
  {
    var o := OrderRequest(pk, req.form.fio, req.form.phone, req.form.email, DetailsParam(req), "", now);
    NewestRequestListedFirst(s, o);
  }
}
