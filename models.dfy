/** The entities of shop/models.py as values, the abstract store of their
    rows, and the model-level rules: `formatted_price`, `WorkPhoto.__str__`,
    `Meta.ordering`, cascade deletion and field defaults.

    `GlobalOption` and `CreditRequest` are used by shop/admin.py and
    shop/views.py but are not defined in shop/models.py, and `OrderRequest`
    there has no `order_details` field although the admin reads one: they
    are modelled only through the fields the using code touches. */
module Models {
  import opened Wrappers
  import opened Numerals
  import opened Price
  import opened Ordering

  /** An image field holds a file name; the empty name is a falsy field. */
  type ImageRef = string

  datatype Product = Product(pk: nat, title: string, price: int, description: string, image: ImageRef)

  /** A price tier (`ProductPrice`), owned by the product `product`. */
  datatype ProductPrice = ProductPrice(pk: nat, product: nat, name: string, price: int, description: string, order: nat)

  /** A gallery image (`ProductImage`), owned by the product `product`. */
  datatype ProductImage = ProductImage(pk: nat, product: nat, image: ImageRef, altText: string, order: nat)

  datatype AdditionalService = AdditionalService(pk: nat, title: string, emoji: string, description: string,
                                                 price: Option<int>, order: nat, isActive: bool)

  /** A `ServiceImage`, owned by the additional service `service`. */
  datatype ServiceImage = ServiceImage(pk: nat, service: nat, image: ImageRef, altText: string, order: nat)

  datatype WorkPhoto = WorkPhoto(pk: nat, title: string, image: ImageRef, createdAt: int)

  datatype OrderRequest = OrderRequest(pk: nat, fio: string, phone: string, email: string, message: string,
                                       orderDetails: string, createdAt: int)

  datatype CompanyInfo = CompanyInfo(pk: nat, title: string, description: string)

  /** Only the fields shop/views.py and shop/admin.py use. */
  datatype GlobalOption = GlobalOption(pk: nat, name: string, price: int, category: string, isActive: bool,
                                       order: int, image: ImageRef)

  /** Only the fields shop/admin.py uses. */
  datatype CreditRequest = CreditRequest(pk: nat, fio: string, phone: string, createdAt: int, status: string)

  /** The database: one sequence of rows per table, in the order the
      database returns them when no ordering is asked for. */
  datatype Store = Store(
    products: seq<Product>,
    prices: seq<ProductPrice>,
    gallery: seq<ProductImage>,
    services: seq<AdditionalService>,
    serviceImages: seq<ServiceImage>,
    photos: seq<WorkPhoto>,
    orders: seq<OrderRequest>,
    companyInfos: seq<CompanyInfo>,
    options: seq<GlobalOption>,
    creditRequests: seq<CreditRequest>)

  predicate ProductExists(s: Store, pk: nat) {
    exists i :: 0 <= i < |s.products| && s.products[i].pk == pk
  }

  predicate ServiceExists(s: Store, pk: nat) {
    exists i :: 0 <= i < |s.services| && s.services[i].pk == pk
  }

  /** Referential integrity of the foreign keys: every tier and gallery
      image belongs to an existing product, every service image to an
      existing service. */
  ghost predicate ForeignKeysValid(s: Store) {
    && (forall t :: t in s.prices ==> ProductExists(s, t.product))
    && (forall g :: g in s.gallery ==> ProductExists(s, g.product))
    && (forall g :: g in s.serviceImages ==> ServiceExists(s, g.service))
  }

  // ----- formatted prices -----

  /** `ProductPrice.formatted_price`: the shared price format of the tier price. */
  function TierFormattedPrice(t: ProductPrice): (r: string)
    ensures r == FormatPrice(t.price)
    ensures ParsePrice(r) == Some(t.price)
  {
    ParseFormatPrice(t.price);
    ReplaceChar(WithCommas(t.price) + Suffix, ',', ' ')
  }

  /** What `AdditionalService.formatted_price` shows when there is no price. */
  const AskForPrice: string := "Уточняйте цену"

  /** `AdditionalService.formatted_price`: a falsy price (`None` or 0) asks
      the customer to enquire; any other price is formatted. */
  function ServiceFormattedPrice(s: AdditionalService): (r: string)
    ensures r == AskForPrice <==> s.price.None? || s.price == Some(0)
    ensures s.price.Some? && s.price.value != 0 ==> r == FormatPrice(s.price.value) && ParsePrice(r) == Some(s.price.value)
  {
    if s.price.Some? && s.price.value != 0 then
      ParseFormatPrice(s.price.value);
      FormatPriceSuffix(s.price.value);
      assert AskForPrice[|AskForPrice| - 1] != Suffix[|Suffix| - 1];
      ReplaceChar(WithCommas(s.price.value) + Suffix, ',', ' ')
    else AskForPrice
  }

  // ----- WorkPhoto.__str__ -----

  const PhotoLabelPrefix: string := "Фото #"

  /** `WorkPhoto.__str__`: the title when it is non-empty, otherwise
      "Фото #" followed by the primary key as `str` writes it, with no
      leading zero. */
  function WorkPhotoLabel(p: WorkPhoto): (r: string)
    ensures p.title != "" ==> r == p.title
    ensures p.title == "" ==> |r| > |PhotoLabelPrefix| && r[..|PhotoLabelPrefix|] == PhotoLabelPrefix
                              && IsDigits(r[|PhotoLabelPrefix|..]) && ParseDigits(r[|PhotoLabelPrefix|..]) == p.pk
                              && (r[|PhotoLabelPrefix|] != '0' || |r| == |PhotoLabelPrefix| + 1)
  {
    if p.title != "" then p.title
    else
      var r := PhotoLabelPrefix + Digits(p.pk);
      assert r[|PhotoLabelPrefix|..] == Digits(p.pk);
      ParseDigitsOfDigits(p.pk);
      r
  }

  /** The label's contract pins it down: an untitled photo's label is the
      prefix followed by exactly `str(pk)`. */
  lemma UntitledLabelIsStrPk(p: WorkPhoto)
    requires p.title == ""
    ensures WorkPhotoLabel(p) == PhotoLabelPrefix + Digits(p.pk)
  {
    var r := WorkPhotoLabel(p);
    var suffix := r[|PhotoLabelPrefix|..];
    assert suffix[0] == r[|PhotoLabelPrefix|];
    CanonicalIsDigits(suffix);
    assert r == r[..|PhotoLabelPrefix|] + suffix;
  }

  // ----- Meta.ordering -----

  /** `ProductPrice.Meta.ordering = ['order', 'price']`. */
  function TierKey(t: ProductPrice): SortKey { SortKey("", t.order, t.price) }

  /** `ordering = ['order']` of ProductImage, AdditionalService and ServiceImage. */
  function GalleryKey(g: ProductImage): SortKey { SortKey("", g.order, 0) }
  function ServiceKey(a: AdditionalService): SortKey { SortKey("", a.order, 0) }
  function ServiceImageKey(g: ServiceImage): SortKey { SortKey("", g.order, 0) }

  /** `OrderRequest.Meta.ordering = ['-created_at']`. */
  function OrderRequestKey(o: OrderRequest): SortKey { SortKey("", -o.createdAt, 0) }

  /** `product.prices.all()`: the product's tiers by (order, price). */
  function TiersOf(s: Store, product: nat): (r: seq<ProductPrice>)
    ensures forall t :: t in r ==> t.product == product
    ensures multiset(r) == multiset(Filter(s.prices, (t: ProductPrice) => t.product == product))
    ensures forall i, j :: 0 <= i < j < |r| ==>
              r[i].order < r[j].order || (r[i].order == r[j].order && r[i].price <= r[j].price)
  {
    var r := SortBy(Filter(s.prices, (t: ProductPrice) => t.product == product), TierKey);
    forall t | t in r ensures t.product == product {
      assert t in multiset(r);
    }
    r
  }

  /** `product.gallery.all()`: the product's images by order. */
  function GalleryOf(s: Store, product: nat): (r: seq<ProductImage>)
    ensures forall g :: g in r ==> g.product == product
    ensures multiset(r) == multiset(Filter(s.gallery, (g: ProductImage) => g.product == product))
    ensures forall i, j :: 0 <= i < j < |r| ==> r[i].order <= r[j].order
  {
    var r := SortBy(Filter(s.gallery, (g: ProductImage) => g.product == product), GalleryKey);
    forall g | g in r ensures g.product == product {
      assert g in multiset(r);
    }
    r
  }

  /** `AdditionalService.objects.all()`: every service, by order. */
  function ServicesInOrder(s: Store): (r: seq<AdditionalService>)
    ensures multiset(r) == multiset(s.services)
    ensures forall i, j :: 0 <= i < j < |r| ==> r[i].order <= r[j].order
  {
    SortBy(s.services, ServiceKey)
  }

  /** `service.images.all()`: the service's images by order. */
  function ServiceImagesOf(s: Store, service: nat): (r: seq<ServiceImage>)
    ensures forall g :: g in r ==> g.service == service
    ensures multiset(r) == multiset(Filter(s.serviceImages, (g: ServiceImage) => g.service == service))
    ensures forall i, j :: 0 <= i < j < |r| ==> r[i].order <= r[j].order
  {
    var r := SortBy(Filter(s.serviceImages, (g: ServiceImage) => g.service == service), ServiceImageKey);
    forall g | g in r ensures g.service == service {
      assert g in multiset(r);
    }
    r
  }

  /** `OrderRequest.objects.all()`: newest `created_at` first. */
  function OrderRequestsNewestFirst(s: Store): (r: seq<OrderRequest>)
    ensures multiset(r) == multiset(s.orders)
    ensures forall i, j :: 0 <= i < j < |r| ==> r[i].createdAt >= r[j].createdAt
  {
    SortBy(s.orders, OrderRequestKey)
  }

  /** A request created after every other one is listed first. */
  lemma NewestRequestListedFirst(s: Store, o: OrderRequest)
    requires forall p :: p in s.orders ==> p.createdAt < o.createdAt
    ensures var r := OrderRequestsNewestFirst(s.(orders := s.orders + [o]));
            |r| > 0 && r[0] == o
  {
    var s' := s.(orders := s.orders + [o]);
    var r := OrderRequestsNewestFirst(s');
    assert o in multiset(s'.orders);
    assert o in multiset(r);
    var k :| 0 <= k < |r| && r[k] == o;
    assert r[0].createdAt >= o.createdAt;
    assert r[0] in multiset(s'.orders);
    assert multiset(s'.orders) == multiset(s.orders) + multiset{o};
  }

  // ----- cascade deletion -----

  /** Deleting a product (`on_delete=CASCADE`): the product, its tiers and
      its gallery images go; every other row stays, in order. */
  function DeleteProduct(s: Store, pk: nat): (s': Store)
    ensures !ProductExists(s', pk)
    ensures forall t :: t in s'.prices <==> t in s.prices && t.product != pk
    ensures forall g :: g in s'.gallery <==> g in s.gallery && g.product != pk
    ensures forall p :: p in s'.products <==> p in s.products && p.pk != pk
    ensures s'.services == s.services && s'.serviceImages == s.serviceImages && s'.options == s.options
    ensures s'.photos == s.photos && s'.orders == s.orders && s'.companyInfos == s.companyInfos
    ensures s'.creditRequests == s.creditRequests
  {
    var products := Filter(s.products, (p: Product) => p.pk != pk);
    var prices := Filter(s.prices, (t: ProductPrice) => t.product != pk);
    var gallery := Filter(s.gallery, (g: ProductImage) => g.product != pk);
    MultisetMembership(products, s.products);
    MultisetMembership(prices, s.prices);
    MultisetMembership(gallery, s.gallery);
    var s' := s.(products := products, prices := prices, gallery := gallery);
    assert !ProductExists(s', pk) by {
      forall i | 0 <= i < |products| ensures products[i].pk != pk {
        assert products[i] in multiset(products);
      }
    }
    s'
  }

  /** Deleting an additional service takes its images with it. */
  function DeleteService(s: Store, pk: nat): (s': Store)
    ensures !ServiceExists(s', pk)
    ensures forall g :: g in s'.serviceImages <==> g in s.serviceImages && g.service != pk
    ensures forall a :: a in s'.services <==> a in s.services && a.pk != pk
    ensures s'.products == s.products && s'.prices == s.prices && s'.gallery == s.gallery
    ensures s'.options == s.options && s'.photos == s.photos && s'.orders == s.orders
    ensures s'.companyInfos == s.companyInfos && s'.creditRequests == s.creditRequests
  {
    var services := Filter(s.services, (a: AdditionalService) => a.pk != pk);
    var images := Filter(s.serviceImages, (g: ServiceImage) => g.service != pk);
    MultisetMembership(services, s.services);
    MultisetMembership(images, s.serviceImages);
    var s' := s.(services := services, serviceImages := images);
    assert !ServiceExists(s', pk) by {
      forall i | 0 <= i < |services| ensures services[i].pk != pk {
        assert services[i] in multiset(services);
      }
    }
    s'
  }

  lemma MultisetMembership<T>(a: seq<T>, b: seq<T>)
    ensures forall x :: x in a <==> x in multiset(a)
    ensures forall x :: x in b <==> x in multiset(b)
  {
  }

  /** Cascade deletion keeps the foreign keys valid: no tier or image is
      left pointing at the deleted product. */
  lemma DeleteProductKeepsForeignKeys(s: Store, pk: nat)
    requires ForeignKeysValid(s)
    ensures ForeignKeysValid(DeleteProduct(s, pk))
  {
    var s' := DeleteProduct(s, pk);
    forall t | t in s'.prices ensures ProductExists(s', t.product) {
      KeepsOwner(s, pk, t.product);
    }
    forall g | g in s'.gallery ensures ProductExists(s', g.product) {
      KeepsOwner(s, pk, g.product);
    }
  }

  lemma KeepsOwner(s: Store, pk: nat, owner: nat)
    requires ProductExists(s, owner) && owner != pk
    ensures ProductExists(DeleteProduct(s, pk), owner)
  {
    var i :| 0 <= i < |s.products| && s.products[i].pk == owner;
    var p := s.products[i];
    var s' := DeleteProduct(s, pk);
    assert p in s'.products;
    var j :| 0 <= j < |s'.products| && s'.products[j] == p;
  }

  /** Deleting a service keeps every service image's owner present. */
  lemma DeleteServiceKeepsForeignKeys(s: Store, pk: nat)
    requires ForeignKeysValid(s)
    ensures ForeignKeysValid(DeleteService(s, pk))
  {
    var s' := DeleteService(s, pk);
    forall g | g in s'.serviceImages ensures ServiceExists(s', g.service) {
      var i :| 0 <= i < |s.services| && s.services[i].pk == g.service;
      var a := s.services[i];
      assert a in s'.services;
      var j :| 0 <= j < |s'.services| && s'.services[j] == a;
    }
  }

  // ----- field defaults on creation -----

  /** A new tier with `order` left at its default of 0. */
  function NewProductPrice(pk: nat, product: nat, name: string, price: int, description: string): (t: ProductPrice)
    ensures t.order == 0 && t.product == product && t.price == price
  {
    ProductPrice(pk, product, name, price, description, 0)
  }

  /** A new gallery image with `order` 0 and an empty alt text. */
  function NewProductImage(pk: nat, product: nat, image: ImageRef): (g: ProductImage)
    ensures g.order == 0 && g.altText == "" && g.product == product
  {
    ProductImage(pk, product, image, "", 0)
  }

  /** A new additional service: emoji ✨, no price, `order` 0, active. */
  function NewAdditionalService(pk: nat, title: string, description: string): (a: AdditionalService)
    ensures a.emoji == "\U{2728}" && a.price.None? && a.order == 0 && a.isActive
    ensures ServiceFormattedPrice(a) == AskForPrice
  {
    AdditionalService(pk, title, "\U{2728}", description, None, 0, true)
  }

  /** A new service image with `order` 0. */
  function NewServiceImage(pk: nat, service: nat, image: ImageRef): (g: ServiceImage)
    ensures g.order == 0 && g.service == service
  {
    ServiceImage(pk, service, image, "", 0)
  }

  /** A new CompanyInfo titled "О компании". */
  function NewCompanyInfo(pk: nat, description: string): (c: CompanyInfo)
    ensures c.title == "О компании"
  {
    CompanyInfo(pk, "О компании", description)
  }

  // ----- the database as mutable state -----

  /** The database the views write to. `nextPk` is the next primary key the
      `orders` table hands out (an auto-increment counter). */
  class Database {
    var store: Store
    var nextPk: nat

    ghost predicate Valid()
      reads this
    {
      forall o :: o in store.orders ==> o.pk < nextPk
    }

    constructor (initial: Store)
      ensures store == initial && Valid()
    {
      store := initial;
      var next: nat := 0;
      var i := 0;
      while i < |initial.orders|
        invariant 0 <= i <= |initial.orders|
        invariant forall k :: 0 <= k < i ==> initial.orders[k].pk < next
      {
        if initial.orders[i].pk >= next {
          next := initial.orders[i].pk + 1;
        }
        i := i + 1;
      }
      nextPk := next;
    }

    /** `OrderRequest.objects.create(fio=..., phone=..., email=..., message=...)`:
        appends one row with a fresh primary key, `created_at` set to the
        clock reading `now` and `order_details` left empty. */
    method CreateOrderRequest(fio: string, phone: string, email: string, message: string, now: int)
      returns (o: OrderRequest)
      requires Valid()
      modifies this
      ensures Valid()
      ensures o == OrderRequest(old(nextPk), fio, phone, email, message, "", now)
      ensures forall p :: p in old(store.orders) ==> p.pk != o.pk
      ensures store == old(store).(orders := old(store.orders) + [o])
    {
      o := OrderRequest(nextPk, fio, phone, email, message, "", now);
      store := store.(orders := store.orders + [o]);
      nextPk := nextPk + 1;
    }
  }
}
