# Sauna shop: a verified model in Dafny

This project models the core of a small Django shop for prefabricated
saunas, together with the JavaScript that runs on its pages. The shop has
three parts: a product catalogue with price tiers and galleries, a
page of shared add-on options, and order and credit-consultation lead forms.
The model is written in Dafny and its properties are proved by the Dafny
verifier.

What is modelled, module by module:

- `Cache` covers the read-through cache decorator `cache_result` of
  `shop/utils.py` and its model-level invalidation table
  `clear_model_cache`. The cache is a map from key to entry, and time is
  an explicit clock reading. The `CacheStore` class holds the map and
  updates it in place, as Django's cache does.
  Every key the decorator writes contains ':' and no key of the
  invalidation table does, so `clear_model_cache` never evicts what
  `cache_result` stored (`Cache.ClearModelKeepsWrapperEntries`).
- `ClearCacheCommand` covers the `clear_cache` management command, which
  deletes one key or clears everything.
- `Price` covers `format_price`: thousands grouped by spaces and the rouble
  sign appended. `ParsePrice` is its inverse, and the round trip is proved.
  `Numerals` holds decimal numerals and their reading, which the price
  format, `WorkPhoto.__str__` and the `<int:pk>` URL converter share.
- `Models` holds the entities of `shop/models.py` as values, with the
  abstract store of their rows. It also holds `formatted_price`,
  `WorkPhoto.__str__`, every `Meta.ordering`, cascade deletion, field
  defaults, and a `Database` class for the order table the views write.
  `Ordering` supplies the stable sort behind `Meta.ordering` and
  `order_by`.
- `Forms` turns `OrderForm` into a validation function with one error per
  failing field.
- `Views` covers the views `index`, `about`, `catalog`, `product_detail`,
  `works`, `order` and `additional_services` over the store.
- `Admin` covers the admin decisions: the CompanyInfo singleton guard,
  `has_details`, the product list counts, the preview fallbacks, and the
  editable and read-only field sets.
- `Urls` holds the route table and Django's first-match resolution.
- `Faq` covers the FAQ accordion of `staticfiles/js/faq-script.js`, as a
  class over per-question state.
- `CaptchaCode` covers the code alphabet and case-insensitive comparison
  that both copies of `captcha-fix.js` share. `Captcha` models the copy
  under `static/js`, and `CaptchaLegacy` the older copy under
  `staticfiles/js`. Each has its own `CaptchaManager` class.

Facts about the code that the model keeps:

- `index` shows the first three of all products, in store order.
- `order` stores the `details` query parameter as the new request's
  `message`. The posted message is dropped, and `order_details` stays
  empty.
- `OrderForm` checks only what its field declarations imply: required
  fields, `max_length` 200 (fio) and 20 (phone), e-mail syntax, no U+0000
  in any text field, and the captcha.
- The cache invalidation table has exactly the keys `shop/utils.py`
  lists.
- `GlobalOption` and `CreditRequest` are used by `shop/admin.py` and
  `shop/views.py` but are not defined in `shop/models.py`. Nor does
  `OrderRequest` there have the `order_details` field that the admin
  reads. These are modelled only through the fields the using code
  touches.
- `CompanyInfoAdmin.fieldsets` (shop/admin.py:189-197) names `phone`,
  `email` and `address`, but `CompanyInfo` in `shop/models.py` has only
  `title` and `description`. Against those models the admin's add and
  change forms cannot be built, and Django raises a `FieldError` for the
  unknown fields.

## Model

| member | source | states |
|---|---|---|
| `Numerals.ParseDigitsOfDigits` | shop/models.py:99 | the decimal numeral of a primary key reads back as that key |
| `Numerals.CanonicalIsDigits` | shop/models.py:99 | a digit run without leading zeros is the numeral `str` writes for its value, so `str(n)` is the only such spelling of n |
| `Price.Spaced` | shop/utils.py:54 | the grouped magnitude starts with a digit, has a space exactly before each full group of three digits counted from the right, and has nothing but digits otherwise |
| `Price.FormatPriceShape` | shop/utils.py:52-54 | `format_price(n)` is an optional minus sign, then the digits of abs(n) grouped by spaces, then " ₽" |
| `Price.FormatPriceSuffix` | shop/utils.py:54 | every formatted price ends with " ₽" |
| `Price.ParseFormatPrice` | shop/utils.py:52-54 | reading a formatted price back gives the original integer, negatives included |
| `Price.FormatPriceInjective` | shop/utils.py:52-54 | different prices never format to the same text |
| `Cache.Lookup` | shop/utils.py:26-27 | a lookup yields a value exactly when the key is present, its entry has not expired, and it holds a non-None value |
| `Cache.Evict` | shop/utils.py:49 | `delete_many` removes exactly the listed keys that are present and leaves every other entry unchanged |
| `Cache.CacheKeyDeterminesName` | shop/utils.py:23 | under one prefix, equal cache keys imply the same function name, since a function name has no colon |
| `Cache.ReadThrough` | shop/utils.py:21-33 | a hit returns the cached value with no call and no change; a miss calls the function once, and either stores its returned result (None included) under the key with the timeout and returns it, or lets its exception through with the cache unchanged; a None result always comes from a call |
| `Cache.SecondCallHits` | shop/utils.py:26-33 | after a miss that stored a non-None value, a second call within the timeout is a hit that returns the first value without calling the function |
| `Cache.NoneAlwaysRecomputes` | shop/utils.py:27 | a function that returns None is called again on the next invocation |
| `Cache.FailedCallIsRetried` | shop/utils.py:30-32 | a call whose function raises stores nothing, so the next call with that key runs the function again |
| `Cache.CachedCallTransparent` | shop/utils.py:21-33 | when the cache holds nothing or the function's own result, the wrapper does what the function does, raising included |
| `Cache.DefaultsServeFiveMinutes` | shop/utils.py:9-33 | with the defaults `timeout=300` and `key_prefix=''`, a value stored by a missed call is served exactly during the following 300 seconds |
| `Cache.InvalidationKeys` | shop/utils.py:42-48 | any model name other than Product, GlobalOption and CompanyInfo evicts no key |
| `Cache.ClearProductEvictsExactly` | shop/utils.py:42-49 | clearing Product removes exactly `products_all`, `products_featured` and `products_catalog`; every other entry is kept |
| `Cache.ClearOtherModels` | shop/utils.py:44-49 | GlobalOption removes exactly the two option keys, CompanyInfo only `company_info`, and any other name changes nothing |
| `Cache.ClearModelIdempotent` | shop/utils.py:49 | clearing a model's keys twice equals clearing them once |
| `Cache.ClearModelKeepsWrapperEntries` | shop/utils.py:23-49 | no key `cache_result` writes is in the invalidation table, so `clear_model_cache` never evicts an entry the decorator stored |
| `Cache.CacheStore.Get` | shop/utils.py:26 | `cache.get` returns the lookup of the current entries |
| `Cache.CacheStore.Set` | shop/utils.py:32 | `cache.set` stores the value under the key, expiring `timeout` after now |
| `Cache.CacheStore.Delete` | shop/management/commands/clear_cache.py:18 | `cache.delete` removes exactly that key |
| `Cache.CacheStore.Clear` | shop/management/commands/clear_cache.py:23 | `cache.clear` empties the cache |
| `Cache.CacheStore.DeleteMany` | shop/utils.py:49 | the loop of deletes leaves the cache equal to the eviction of those keys |
| `Cache.CacheStore.CachedCall` | shop/utils.py:21-33 | the wrapper's result, the cache afterwards and the number of calls are those of the read-through on the key built from prefix, name and argument reprs |
| `Cache.CacheStore.ClearModelCache` | shop/utils.py:40-49 | the cache afterwards is the old one with the model's keys evicted |
| `ClearCacheCommand.Handled` | shop/management/commands/clear_cache.py:16-26 | with a non-empty `--key`, only that key goes; without one, or with an empty one, the cache ends empty; nothing is ever added or changed |
| `ClearCacheCommand.Handle` | shop/management/commands/clear_cache.py:16-26 | `handle` leaves the cache as `Handled` describes |
| `ClearCacheCommand.DeleteAbsentKeyIsNoOp` | shop/management/commands/clear_cache.py:17-18 | deleting a key that is not cached changes nothing |
| `ClearCacheCommand.DeleteKeyIdempotent` | shop/management/commands/clear_cache.py:18 | running the command twice with the same key equals running it once |
| `ClearCacheCommand.ClearedCacheMisses` | shop/management/commands/clear_cache.py:22-23 | after a full clear, every lookup misses and every wrapped call recomputes |
| `Models.TierFormattedPrice` | shop/models.py:33-34 | a tier's formatted price is `format_price` of its price and reads back as that price |
| `Models.ServiceFormattedPrice` | shop/models.py:65-68 | the text is "Уточняйте цену" exactly when the price is None or 0; otherwise it is the formatted price, and it reads back as the price |
| `Models.WorkPhotoLabel` | shop/models.py:98-99 | a titled photo shows its title; an untitled one shows "Фото #" followed by a digit string that reads back as its primary key and has no leading zero unless it is the single digit 0 |
| `Models.UntitledLabelIsStrPk` | shop/models.py:98-99 | an untitled photo's label is "Фото #" followed by exactly the numeral `str(pk)` |
| `Models.TiersOf` | shop/models.py:18-28 | a product's tiers are exactly its own rows, with multiplicity, ordered by order and then by price |
| `Models.GalleryOf` | shop/models.py:37-49 | a product's gallery is exactly its own images, ordered by order |
| `Models.ServicesInOrder` | shop/models.py:52-73 | all additional services, ordered by order |
| `Models.ServiceImagesOf` | shop/models.py:76-90 | a service's images are exactly its own, ordered by order |
| `Models.OrderRequestsNewestFirst` | shop/models.py:106-119 | all order requests, newest `created_at` first |
| `Models.NewestRequestListedFirst` | shop/models.py:111-119 | a request newer than every stored one heads the list |
| `Models.DeleteProduct` | shop/models.py:18-41 | deleting a product removes it, its tiers and its gallery images; every other row of every table stays |
| `Models.DeleteService` | shop/models.py:76-79 | deleting a service removes it and its images; every other row stays |
| `Models.DeleteProductKeepsForeignKeys` | shop/models.py:19-38 | cascade deletion of a product keeps every foreign key pointing at an existing row |
| `Models.DeleteServiceKeepsForeignKeys` | shop/models.py:78-79 | cascade deletion of a service keeps every service image's owner present |
| `Models.NewProductPrice` | shop/models.py:23 | a new tier's order defaults to 0 |
| `Models.NewProductImage` | shop/models.py:40-41 | a new gallery image has order 0 and an empty alt text |
| `Models.NewAdditionalService` | shop/models.py:55-60 | a new service has emoji ✨, no price, order 0 and is active, so it asks for the price |
| `Models.NewServiceImage` | shop/models.py:81-82 | a new service image has order 0 |
| `Models.NewCompanyInfo` | shop/models.py:123 | a new CompanyInfo is titled "О компании" |
| `Models.Database.CreateOrderRequest` | shop/views.py:70-75 | appends exactly one row, with a primary key no stored row has and `created_at` equal to now; nothing else changes |
| `Forms.FioRule` | shop/forms.py:6-13 | `fio` fails exactly when empty, longer than 200 characters or holding U+0000; a non-empty value within the length fails only with `null_characters_not_allowed` |
| `Forms.PhoneRule` | shop/forms.py:14-21 | `phone` fails exactly when empty, longer than 20 characters or holding U+0000; a non-empty value within the length fails only with `null_characters_not_allowed` |
| `Forms.EmailRule` | shop/forms.py:22-28 | `email` fails exactly when empty, not a valid address or holding U+0000 |
| `Forms.MessageRule` | shop/forms.py:29-37 | `message` is optional and has no length bound: it fails exactly when it holds U+0000, and then with `null_characters_not_allowed` |
| `Forms.CaptchaFailureInvalidates` | shop/forms.py:38 | a failed captcha makes the form invalid whatever else is posted |
| `Forms.ValidExactly` | shop/forms.py:5-38 | the form is valid exactly when name and phone are non-empty and within their lengths, the e-mail is non-empty and valid, the captcha passes, and no text field holds U+0000 |
| `Views.Index` | shop/views.py:8-11 | the page lists the first min(3, n) products in store order |
| `Views.About` | shop/views.py:14-17 | nothing exactly when no CompanyInfo exists; otherwise the one with the smallest primary key |
| `Views.ViewFormattedPrice` | shop/views.py:24 | the views' inline price expression (written out at lines 24, 35 and 38) is exactly `format_price` |
| `Views.ListProduct` | shop/views.py:23-24 | a catalog row is the product itself with its `format_price` text |
| `Views.ListedProductReadsBack` | shop/views.py:24 | a catalog row's price text parses back to the product's price |
| `Views.ListTier` | shop/views.py:37-38 | a tier row is the tier itself with its `format_price` text |
| `Views.ListedTierReadsBack` | shop/views.py:38 | a tier row's price text parses back to the tier's price |
| `Views.Catalog` | shop/views.py:20-25 | one row per stored product, in store order, each the product with its formatted price |
| `Views.ActiveOptions` | shop/views.py:33 | exactly the active options, with multiplicity, ordered by category (code-point order) and then by order |
| `Views.ActiveOptionsExactly` | shop/views.py:97 | an option is listed if and only if it is stored and active |
| `Views.AdditionalServices` | shop/views.py:95-102 | the page shows the active options and their count |
| `Views.FindProduct` | shop/views.py:30 | None exactly when no product has the key; otherwise a stored product with that key |
| `Views.ListTiers` | shop/views.py:37-38 | one row per tier, in the given order, each the tier with its formatted price |
| `Views.ProductDetail` | shop/views.py:28-45 | 404 exactly when the product does not exist; otherwise the stored product with that key and its formatted price, one formatted row per tier in (order, price) order, and the active options with their count |
| `Views.Works` | shop/views.py:48-51 | all photos, newest first |
| `Views.Order` | shop/views.py:59-87 | a valid POST appends one request whose message is the `details` parameter, then redirects; a GET or an invalid POST writes nothing and re-renders with `success` false and the details echoed back |
| `Views.PlacedOrderListedFirst` | shop/views.py:70-79 | an order placed after every stored one is listed first in the admin |
| `Admin.HasAddPermission` | shop/admin.py:199-202 | adding is allowed exactly when no CompanyInfo exists |
| `Admin.HasDeletePermission` | shop/admin.py:204-205 | deleting a CompanyInfo is never allowed |
| `Admin.SingletonKept` | shop/admin.py:199-205 | from at most one CompanyInfo, any sequence of admin adds, deletes and edits leaves at most one and never fewer |
| `Admin.AddCreatesTheOne` | shop/admin.py:199-202 | after a first add to an empty table, exactly one CompanyInfo exists from then on |
| `Admin.HasDetails` | shop/admin.py:168-169 | true exactly when `order_details` is non-empty |
| `Admin.CountRelated` | shop/admin.py:84-90 | counting `prices` or `gallery` gives the product's distinct tiers or gallery images; a name of Product's own fields is a column count; any other name, `images` among them, is a field error |
| `Admin.ImagesAnnotationAsWritten` | shop/admin.py:88 | `Count('images')` on Product is a field error |
| `Admin.PricesAnnotation` | shop/admin.py:89 | `Count('prices')` is the number of the product's distinct tiers |
| `Admin.DistinctCount` | shop/admin.py:88-89 | with unique primary keys, a distinct count equals the number of matching rows |
| `Admin.ImagesCountIsGallerySize` | shop/admin.py:102-103 | the images count equals the length of the product's gallery |
| `Admin.PricesCountIsTierCount` | shop/admin.py:108-109 | the prices count equals the number of the product's tiers |
| `Admin.ProductImagePreview` | shop/admin.py:92-98 | the product's image, or "—" when it has none |
| `Admin.GalleryImagePreview` | shop/admin.py:66-72 | the gallery image, or "Нет изображения" when it has none |
| `Admin.OptionPreview` | shop/admin.py:41-47 | the option's image, or "—" when it has none |
| `Admin.WorkPhotoPreview` | shop/admin.py:124-140 | the photo, or "Нет изображения" in the list and "Изображение ещё не загружено" in the large preview |
| `Admin.ListEditableAccepted` | shop/admin.py:13-14 | both editable columns are displayed, and neither is the link column |
| `Admin.SaveOptionRow` | shop/admin.py:14 | saving a list row changes only `is_active` and `order` |
| `Admin.SaveCreditRequest` | shop/admin.py:181 | saving a credit request changes only its status; `fio`, `phone` and `created_at` keep their stored values |
| `Urls.FirstMatch` | shop/urls.py:5-14 | the index of the first route whose pattern matches, or none when no route matches |
| `Urls.RouteTableDistinct` | shop/urls.py:5-14 | nine routes, no two with the same name or pattern |
| `Urls.AtMostOneRouteMatches` | shop/urls.py:6-14 | no path matches two routes |
| `Urls.ResolveProductPath` | shop/urls.py:9 | `product/<digits>/` resolves to `product_detail` with the integer the digits denote |
| `Urls.ResolveProductPk` | shop/urls.py:9 | the numeral of any primary key resolves to `product_detail` with that key |
| `Urls.ProductPathNeedsDigits` | shop/urls.py:9 | a `product/…/` path whose middle is not a digit run resolves to nothing |
| `Urls.EmptyPathIsIndex` | shop/urls.py:6 | the empty path resolves to the `index` view |
| `Urls.OrderPathResolves` | shop/urls.py:12 | `order/` resolves to the `order` view and to no earlier route |
| `Urls.OrderSuccessPathResolves` | shop/urls.py:12-13 | `order/success/` resolves to `order_success`, not to `order/` or any earlier route |
| `Faq.Opened` | staticfiles/js/faq-script.js:12-17 | opening makes the question active, its answer active and `aria-expanded` true, and leaves visibility alone |
| `Faq.Closed` | staticfiles/js/faq-script.js:20-25 | closing makes all three flags false and leaves visibility alone |
| `Faq.CloseEvery` | staticfiles/js/faq-script.js:28-32 | after closing all, no question is active and each stays consistent and equally visible |
| `Faq.OpenEvery` | staticfiles/js/faq-script.js:186-190 | after opening all, every question is active and consistent |
| `Faq.OpenEveryBreaksAtMostOne` | staticfiles/js/faq-script.js:186-190 | with two or more questions, opening all leaves more than one open, so "at most one open" holds after a click but is not an invariant |
| `Faq.Click` | staticfiles/js/faq-script.js:35-53 | after a click, at most one question is active: none if the clicked one was active, otherwise exactly the clicked one; flags stay consistent and visibility unchanged |
| `Faq.ClickTwiceRestoresQuestion` | staticfiles/js/faq-script.js:35-53 | clicking the same question twice gives it back its original open state |
| `Faq.FocusAfter` | staticfiles/js/faq-script.js:56-110 | a key on question i moves focus to the next or previous item (arrows) or to the first or last question (Home, End) only when that target exists and is displayed; otherwise, and for every other key, focus stays on i |
| `Faq.FocusStaysOnShown` | staticfiles/js/faq-script.js:56-110 | from a displayed question, every key leaves focus on a displayed question |
| `Faq.ArrowDownThenUp` | staticfiles/js/faq-script.js:63-110 | with the next item displayed, ArrowDown then ArrowUp returns focus to the starting question; with it hidden, ArrowDown does not move |
| `Faq.ToLower` | staticfiles/js/faq-script.js:159-165 | Latin capitals A-Z map to a-z and Cyrillic А-Я to а-я (32 code points up), Ё maps to ё, and every other character is unchanged |
| `Faq.ToLowerIdempotent` | staticfiles/js/faq-script.js:159-165 | lowering twice equals lowering once; a lowered character is never one of the handled capitals |
| `Faq.Searched` | staticfiles/js/faq-script.js:158-176 | an item is shown exactly when its question or answer contains the search text, ignoring case; nothing else changes |
| `Faq.ShowEvery` | staticfiles/js/faq-script.js:179-183 | resetting shows every item and keeps its open state |
| `Faq.EmptySearchShowsAll` | staticfiles/js/faq-script.js:158-183 | the empty search shows the same items as a reset |
| `Faq.SearchFindsOwnQuestion` | staticfiles/js/faq-script.js:158-173 | searching for a question's text, in any letter case, shows that question |
| `Faq.FAQAccordion.constructor` | staticfiles/js/faq-script.js:113-148 | every question starts closed with `aria-expanded` false, and every item is visible |
| `Faq.FAQAccordion.OpenQuestion` | staticfiles/js/faq-script.js:12-17 | only the given question opens |
| `Faq.FAQAccordion.CloseQuestion` | staticfiles/js/faq-script.js:20-25 | only the given question closes |
| `Faq.FAQAccordion.CloseAllQuestions` | staticfiles/js/faq-script.js:28-32 | the loop leaves the state equal to closing every question |
| `Faq.FAQAccordion.HandleQuestionClick` | staticfiles/js/faq-script.js:35-53 | the new state is `Click` of the old one |
| `Faq.FAQAccordion.HandleKeyboard` | staticfiles/js/faq-script.js:56-96 | Enter and Space click question i; the new focus is `FocusAfter` of the key, question i and the items as displayed when the key arrives |
| `Faq.FAQAccordion.OpenByIndex` | staticfiles/js/faq-script.js:151-155 | an index in range clicks that question; any other index changes nothing |
| `Faq.FAQAccordion.SearchQuestion` | staticfiles/js/faq-script.js:158-176 | the state becomes `Searched`, and the result is true exactly when some item is shown |
| `Faq.FAQAccordion.ResetSearch` | staticfiles/js/faq-script.js:179-183 | every item is shown again |
| `Faq.FAQAccordion.OpenAll` | staticfiles/js/faq-script.js:186-190 | every question opens |
| `Faq.FAQAccordion.CloseAll` | staticfiles/js/faq-script.js:193-195 | every question closes |
| `CaptchaCode.AlphabetShape` | static/js/captcha-fix.js:39 | the alphabet has 32 distinct symbols, all upper-case letters or the digits 2-9, and none of I, O, 0 and 1 |
| `CaptchaCode.CodeAcceptedInEitherCase` | static/js/captcha-fix.js:124-128 | a generated code is accepted both as shown and in lower case |
| `CaptchaCode.AcceptedInputHasCodeLength` | static/js/captcha-fix.js:125 | under ASCII upper-casing (see `CaptchaCode.Accepts` under Left out), accepted input is six characters long |
| `Captcha.CaptchaManager.constructor` | static/js/captcha-fix.js:8-35 | with canvas, refresh button and input all present, initialisation runs and a code is generated with the input emptied; otherwise the code stays empty |
| `Captcha.CaptchaManager.GenerateCode` | static/js/captcha-fix.js:38-46 | the code has six symbols, each from the alphabet |
| `Captcha.CaptchaManager.Refresh` | static/js/captcha-fix.js:116-121 | the code is replaced by a generated one and the input is emptied |
| `Captcha.CaptchaManager.Validate` | static/js/captcha-fix.js:124-128 | true exactly when the upper-cased input equals the current code |
| `Captcha.CaptchaManager.OnRefreshClick` | static/js/captcha-fix.js:138-144 | once initialised, a click generates a new code and empties the input |
| `Captcha.CaptchaManager.OnInput` | static/js/captcha-fix.js:149-155 | typing sets the input, and once initialised it clears the error class and hides the message |
| `Captcha.CaptchaManager.OnSubmit` | static/js/captcha-fix.js:158-189 | the submission is blocked exactly when a listener exists and the code is wrong; a block marks the input, shows the message if there is one, regenerates the code and empties the input; otherwise nothing changes |
| `Captcha.TypedCodeSubmits` | static/js/captcha-fix.js:159-163 | typing the shown code, or its lower-case form, lets the form through and keeps the code |
| `CaptchaLegacy.CaptchaManager.constructor` | staticfiles/js/captcha-fix.js:6-20 | the same outcome as the newer copy, from one combined presence check |
| `CaptchaLegacy.CaptchaManager.GenerateCode` | staticfiles/js/captcha-fix.js:23-30 | the code has six symbols, each from the alphabet |
| `CaptchaLegacy.CaptchaManager.Refresh` | staticfiles/js/captcha-fix.js:99-103 | the code is replaced by a generated one and the input is emptied |
| `CaptchaLegacy.CaptchaManager.Validate` | staticfiles/js/captcha-fix.js:106-108 | true exactly when the upper-cased input equals the current code |
| `CaptchaLegacy.CaptchaManager.OnRefreshClick` | staticfiles/js/captcha-fix.js:116-122 | once initialised, a click generates a new code and empties the input |
| `CaptchaLegacy.CaptchaManager.OnInput` | staticfiles/js/captcha-fix.js:125-131 | typing sets the input, and once initialised it clears the error class and hides the message |
| `CaptchaLegacy.CaptchaManager.OnSubmit` | staticfiles/js/captcha-fix.js:134-160 | the submission is blocked exactly when a listener exists and the code is wrong; a block marks the input, shows the message if there is one, regenerates the code and empties the input; otherwise nothing changes |
| `CaptchaLegacy.TypedCodeSubmits` | staticfiles/js/captcha-fix.js:135-138 | typing the shown code, or its lower-case form, lets the form through and keeps the code |

## Left out

- `static/js/main.js` is not part of this model. It is scroll, animation and timer handling over floating-point browser values.
- `drawCaptcha`, `scrollIntoView`, `alert`, console output and the `setTimeout` delays and search debounce are left out. They draw, scroll or log, and change none of the modelled state.
- The ORM, SQL, template rendering, the `messages` framework, `redirect` and the HTML of `format_html` are left out. The store is a value, responses are datatypes, and an image preview is a `Thumbnail`.
- `Admin.Step`, `Admin.Run`, `Admin.SingletonKept` and `Admin.AddCreatesTheOne` take the CompanyInfo add and change forms to build. The model leaves out the `FieldError` that the fieldsets' unknown `phone`, `email` and `address` raise against `shop/models.py`, because that file may be an older copy (it also lacks `GlobalOption` and `CreditRequest`). What is modelled is the permission logic of shop/admin.py:199-205.
- `Admin.CountRelated`: the value of a count over one of Product's own columns, and lookups spanning relations with `__`, are not modelled. `get_queryset` uses neither.
- `Forms.Clean`: reports one error per field, the first validator's in Django's order. Django lists every failing validator, so a value both too long and holding U+0000 carries both `max_length` and `null_characters_not_allowed` there.
- Django's `EmailValidator` and the server-side `CaptchaField` are foreign code. They are the predicate parameters `emailOk` and `captchaOk`. Stripping of surrounding whitespace by `CharField` is taken as already done.
- Cache expiry uses an explicit clock rather than real time. `timeout=None` (never expire) is not modelled. Neither is the cache shared between concurrent requests.
- Evicting expired entries on `get` is not modelled. An expired entry stays in the map but is never served, so every lookup answers the same.
- The repr text `str(args)` and `str(kwargs)` is taken as given strings. The model does not compute Python's repr.
- The views `contact` and `order_success` only render templates, and there is nothing to state about them.
- `__str__` of Product, ProductPrice, ProductImage, AdditionalService, ServiceImage, OrderRequest and CompanyInfo only builds display text, and is left out. Also left out are the `strftime` date format and the `max_digits` bound on prices.
- `catalog` and `product_detail` attach `formatted_price` to ORM objects in place. The model builds new rows that carry the attribute instead.
- `Faq.ToLower`: lowers ASCII and basic Cyrillic capitals only, not the full Unicode case mapping of `toLowerCase`.
- `CaptchaCode.Accepts`: upper-cases ASCII only, not the full Unicode mapping of `toUpperCase`, which can change a string's length.
- The FAQ model takes every question to be followed by its answer element, which `openQuestion` and `closeQuestion` assume. Every item is taken to be a sibling of the next one. It also takes the markup to deliver every question without the `active` class.
- The credit-consultation form and its view are not part of this model.
- `Views.ActiveOptions`: categories are compared by code point, as a binary collation such as SQLite's does. The database is not part of the code. Under a locale or ICU collation, for example PostgreSQL's, case and punctuation weigh differently, and two categories can come out in the other order.
- Orderings that tie on their keys keep the order of the store, because the sort is stable. A database may return tied rows in any order.

## Findings

| source | as written | input that shows it | evidently intended | confidence | as-written member | corrected member |
|---|---|---|---|---|---|---|
| shop/admin.py:88 | `get_queryset` annotates Product with `Count('images', distinct=True)`. Product's image relation is named `gallery` (shop/models.py:38), and `images` belongs to AdditionalService (shop/models.py:78). | Opening the product list in the admin with any product stored: the annotation names no relation of Product, so Django raises a FieldError. | `Count('gallery', distinct=True)`: the number of the product's gallery images | high; not executed | `Admin.ImagesAnnotationAsWritten` | `Admin.ImagesCountIsGallerySize` |
