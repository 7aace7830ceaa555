/** The decisions of shop/admin.py: the CompanyInfo singleton guard,
    `has_details`, the product list counts, the preview fallbacks and the
    read-only / inline-editable field sets. HTML produced by `format_html`
    is replaced by the Thumbnail case of Preview. */
module Admin {
  import opened Wrappers
  import opened Ordering
  import opened Models

  // ----- CompanyInfoAdmin -----

  /** `CompanyInfoAdmin.has_add_permission`: only while no CompanyInfo exists. */
  function HasAddPermission(s: Store): (allowed: bool)
    ensures allowed <==> |s.companyInfos| == 0
  {
    if |s.companyInfos| > 0 then false else true
  }

  /** `CompanyInfoAdmin.has_delete_permission`: never, for any object. */
  function HasDeletePermission(s: Store, obj: Option<CompanyInfo>): (allowed: bool)
    ensures !allowed
  {
    false
  }

  /** What the admin may attempt on CompanyInfo rows. */
  datatype InfoAction = AddInfo(info: CompanyInfo) | DeleteInfo(pk: nat) | EditInfo(info: CompanyInfo)

  /** One admin action, carried out only when the admin permits it. The
      add and change forms are taken to build; their fieldsets' fields are
      not checked against the model. */
  function Step(s: Store, a: InfoAction): (s': Store)
  {
    match a
    case AddInfo(info) =>
      if HasAddPermission(s) then s.(companyInfos := s.companyInfos + [info]) else s
    case DeleteInfo(pk) =>
      if HasDeletePermission(s, None) then s.(companyInfos := Filter(s.companyInfos, (c: CompanyInfo) => c.pk != pk)) else s
    case EditInfo(info) =>
      s.(companyInfos := seq(|s.companyInfos|, i requires 0 <= i < |s.companyInfos| =>
                           if s.companyInfos[i].pk == info.pk then info else s.companyInfos[i]))
  }

  function Run(s: Store, actions: seq<InfoAction>): Store
    decreases |actions|
  {
    if actions == [] then s else Run(Step(s, actions[0]), actions[1..])
  }

  /** Starting from at most one CompanyInfo, any sequence of admin actions
      leaves at most one, and never fewer than there were. */
  lemma {:induction false} SingletonKept(s: Store, actions: seq<InfoAction>)
    requires |s.companyInfos| <= 1
    ensures |s.companyInfos| <= |Run(s, actions).companyInfos| <= 1
    decreases |actions|
  {
    if actions != [] {
      SingletonKept(Step(s, actions[0]), actions[1..]);
    }
  }

  /** Once an add has gone through from an empty table there is exactly one. */
  lemma {:induction false} AddCreatesTheOne(s: Store, info: CompanyInfo, actions: seq<InfoAction>)
    requires |s.companyInfos| == 0
    ensures |Run(Step(s, AddInfo(info)), actions).companyInfos| == 1
  {
    SingletonKept(Step(s, AddInfo(info)), actions);
  }

  // ----- OrderRequestAdmin -----

  /** `OrderRequestAdmin.has_details`: `bool(obj.order_details)`. */
  function HasDetails(o: OrderRequest): (r: bool)
    ensures r <==> |o.orderDetails| > 0
  {
    o.orderDetails != ""
  }

  // ----- ProductAdmin -----

  /** The distinct primary keys of the rows of s that satisfy keep. */
  function PksWhere<T(==)>(s: seq<T>, pk: T -> nat, keep: T -> bool): set<nat>
  {
    set x | x in s && keep(x) :: pk(x)
  }

  /** No two rows of s share a primary key. */
  predicate DistinctPks<T>(s: seq<T>, pk: T -> nat)
  {
    forall i, j :: 0 <= i < j < |s| ==> pk(s[i]) != pk(s[j])
  }

  /** `images_count` as intended: the number of distinct gallery images of
      the product, `Count('gallery', distinct=True)`. */
  function ImagesCount(s: Store, p: Product): nat
  {
    |PksWhere(s.gallery, (g: ProductImage) => g.pk, (g: ProductImage) => g.product == p.pk)|
  }

  /** `prices_count`: `Count('prices', distinct=True)`, the number of
      distinct price tiers of the product. */
  function PricesCount(s: Store, p: Product): nat
  {
    |PksWhere(s.prices, (t: ProductPrice) => t.pk, (t: ProductPrice) => t.product == p.pk)|
  }

  /** The outcome of annotating the product list with `Count(name)`: a
      count over a reverse relation, a count over one of Product's own
      columns, or the `FieldError` Django raises for a name that is
      neither. */
  datatype Annotation = Counted(n: nat) | OwnColumn(column: string) | FieldError(relation: string)

  /** Product's own fields, `pk` and the implicit `id` included. */
  const ProductColumns: set<string> := {"id", "pk", "title", "price", "description", "image"}

  /** Product's reverse relations: `prices` (ProductPrice.product) and
      `gallery` (ProductImage.product). `images` is the related name of
      ServiceImage.service, a relation of AdditionalService. */
  const ProductRelations: set<string> := {"prices", "gallery"}

  /** `Count(name, distinct=True)` on a product. */
  function CountRelated(s: Store, p: Product, name: string): (r: Annotation)
    ensures r.FieldError? <==> name !in ProductRelations && name !in ProductColumns
    ensures r.FieldError? ==> r.relation == name
    ensures r.OwnColumn? <==> name in ProductColumns
    ensures name == "prices" ==> r == Counted(PricesCount(s, p))
    ensures name == "gallery" ==> r == Counted(ImagesCount(s, p))
  {
    if name == "prices" then Counted(PricesCount(s, p))
    else if name == "gallery" then Counted(ImagesCount(s, p))
    else if name in ProductColumns then OwnColumn(name)
    else FieldError(name)
  }

  /** `_images_count` as `get_queryset` writes it, `Count('images')`. */
  function ImagesAnnotationAsWritten(s: Store, p: Product): (r: Annotation)
    ensures r == FieldError("images")
  {
    CountRelated(s, p, "images")
  }

  /** `_prices_count` as `get_queryset` writes it, `Count('prices')`. */
  function PricesAnnotation(s: Store, p: Product): (r: Annotation)
    ensures r == Counted(PricesCount(s, p))
  {
    CountRelated(s, p, "prices")
  }

  /** With distinct primary keys, counting distinct keys counts rows. */
  lemma {:induction false} DistinctCount<T(!new)>(s: seq<T>, pk: T -> nat, keep: T -> bool)
    requires DistinctPks(s, pk)
    ensures |PksWhere(s, pk, keep)| == |Filter(s, keep)|
  {
    if s != [] {
      var t := s[1..];
      DistinctTail(s, pk);
      DistinctCount(t, pk, keep);
      PksWhereCons(s, pk, keep);
    }
  }

  lemma DistinctTail<T>(s: seq<T>, pk: T -> nat)
    requires s != [] && DistinctPks(s, pk)
    ensures DistinctPks(s[1..], pk)
    ensures forall x :: x in s[1..] ==> pk(x) != pk(s[0])
  {
    var t := s[1..];
    forall i, j | 0 <= i < j < |t| ensures pk(t[i]) != pk(t[j]) {
      assert t[i] == s[i + 1] && t[j] == s[j + 1];
    }
    forall x | x in t ensures pk(x) != pk(s[0]) {
      var j :| 0 <= j < |t| && t[j] == x;
      assert s[j + 1] == x;
    }
  }

  /** Peeling the first row off PksWhere. */
  lemma PksWhereCons<T(!new)>(s: seq<T>, pk: T -> nat, keep: T -> bool)
    requires s != []
    requires forall x :: x in s[1..] ==> pk(x) != pk(s[0])
    ensures |PksWhere(s, pk, keep)| == (if keep(s[0]) then 1 else 0) + |PksWhere(s[1..], pk, keep)|
  {
    var t := s[1..];
    assert s == [s[0]] + t;
    assert pk(s[0]) !in PksWhere(t, pk, keep);
    if keep(s[0]) {
      assert PksWhere(s, pk, keep) == {pk(s[0])} + PksWhere(t, pk, keep);
    } else {
      assert PksWhere(s, pk, keep) == PksWhere(t, pk, keep);
    }
  }

  /** The images count is the length of the product's gallery. */
  lemma ImagesCountIsGallerySize(s: Store, p: Product)
    requires DistinctPks(s.gallery, (g: ProductImage) => g.pk)
    ensures ImagesCount(s, p) == |GalleryOf(s, p.pk)|
  {
    var keep := (g: ProductImage) => g.product == p.pk;
    DistinctCount(s.gallery, (g: ProductImage) => g.pk, keep);
    assert |multiset(GalleryOf(s, p.pk))| == |multiset(Filter(s.gallery, keep))|;
  }

  /** The prices count is the number of the product's tiers. */
  lemma PricesCountIsTierCount(s: Store, p: Product)
    requires DistinctPks(s.prices, (t: ProductPrice) => t.pk)
    ensures PricesCount(s, p) == |TiersOf(s, p.pk)|
  {
    var keep := (t: ProductPrice) => t.product == p.pk;
    DistinctCount(s.prices, (t: ProductPrice) => t.pk, keep);
    assert |multiset(TiersOf(s, p.pk))| == |multiset(Filter(s.prices, keep))|;
  }

  // ----- previews -----

  /** A preview cell: the image itself, or a placeholder text. */
  datatype Preview = Thumbnail(image: ImageRef) | Placeholder(text: string)

  /** An image preview with the given fallback text: the image when the
      field is set, the fallback when it is empty. */
  function PreviewOr(image: ImageRef, fallback: string): (r: Preview)
    ensures r.Placeholder? <==> image == ""
    ensures r.Placeholder? ==> r.text == fallback
    ensures r.Thumbnail? ==> r.image == image
  {
    if image != "" then Thumbnail(image) else Placeholder(fallback)
  }

  /** The placeholder of the list previews, an em dash. */
  const EmDash: string := "—"

  /** `ProductAdmin.image_preview`: '—' when the product has no main image. */
  function ProductImagePreview(p: Product): (r: Preview)
    ensures r == (if p.image == "" then Placeholder(EmDash) else Thumbnail(p.image))
  {
    PreviewOr(p.image, EmDash)
  }

  /** `ProductImageInline.preview`: "Нет изображения" for a missing image. */
  function GalleryImagePreview(g: ProductImage): (r: Preview)
    ensures r == (if g.image == "" then Placeholder("Нет изображения") else Thumbnail(g.image))
  {
    PreviewOr(g.image, "Нет изображения")
  }

  /** `GlobalOptionAdmin.preview_image`: '—' for an option without an image. */
  function OptionPreview(o: GlobalOption): (r: Preview)
    ensures r == (if o.image == "" then Placeholder(EmDash) else Thumbnail(o.image))
  {
    PreviewOr(o.image, EmDash)
  }

  /** `WorkPhotoAdmin.image_preview` and `image_preview_large`. */
  function WorkPhotoPreview(w: WorkPhoto, large: bool): (r: Preview)
    ensures w.image == "" ==> r == Placeholder(if large then "Изображение ещё не загружено" else "Нет изображения")
    ensures w.image != "" ==> r == Thumbnail(w.image)
  {
    PreviewOr(w.image, if large then "Изображение ещё не загружено" else "Нет изображения")
  }

  // ----- read-only and inline-editable fields -----

  const GlobalOptionListDisplay: seq<string> :=
    ["name", "category_display", "formatted_price_display", "preview_image", "is_active", "order"]

  const GlobalOptionListEditable: seq<string> := ["is_active", "order"]

  const CreditRequestReadonly: set<string> := {"fio", "phone", "created_at"}

  /** Django's admin accepts `list_editable` only when each of its fields is
      displayed and none is the first (link) column. */
  lemma ListEditableAccepted()
    ensures forall f :: f in GlobalOptionListEditable ==> f in GlobalOptionListDisplay[1..]
  {
    assert GlobalOptionListDisplay[1..][3] == "is_active" && GlobalOptionListDisplay[1..][4] == "order";
  }

  /** Saving a GlobalOption row from the change list: only `is_active` and
      `order` are taken from the edit. */
  function SaveOptionRow(stored: GlobalOption, isActive: bool, order: int): (r: GlobalOption)
    ensures r.isActive == isActive && r.order == order
    ensures r.pk == stored.pk && r.name == stored.name && r.price == stored.price
    ensures r.category == stored.category && r.image == stored.image
  {
    stored.(isActive := isActive, order := order)
  }

  /** Saving a CreditRequest from its change form: `fio`, `phone` and
      `created_at` are read-only, so only `status` can change. */
  function SaveCreditRequest(stored: CreditRequest, posted: CreditRequest): (r: CreditRequest)
    ensures r.fio == stored.fio && r.phone == stored.phone && r.createdAt == stored.createdAt
    ensures r.pk == stored.pk && r.status == posted.status
  {
    stored.(status := posted.status)
  }
}
