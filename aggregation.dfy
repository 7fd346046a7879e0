/**
 * GET /api/categories: the aggregation of flat rows into one view per
 * category, each with an `images` list.
 *
 * The four storage queries become input sequences: categories (newest
 * first), direct `images` rows of those categories (newest first), their
 * `properties` rows (no ORDER BY, so in whatever order they come) and the
 * `property_images` rows of those properties (ordered by property id, then
 * sort_order). A category's images are its direct images in input order,
 * then, property by property in input order, one entry per image of that
 * property. A property without images contributes nothing.
 *
 * `CategoryImages` and `Views` are the reference definitions, per category;
 * `Compute` is the server's computation (three dictionary-filling loops and
 * a final map), proved equal to them.
 */
module Aggregation {
  import opened Values
  import opened Strings
  import opened Grouping

  // ----- rows, as the four queries return them -----

  datatype CategoryRow = CategoryRow(
    id: int, name: string, nameAr: Option<string>, description: Option<string>,
    descriptionAr: Option<string>, createdAt: string, updatedAt: string)

  /** A direct (category-owned) image row; either a stored file or an external URL. */
  datatype ImageRow = ImageRow(
    id: int, categoryId: int, filename: Option<string>, originalName: Option<string>,
    title: Option<string>, titleAr: Option<string>, videoUrl: Option<string>,
    imageUrl: Option<string>, createdAt: string)

  datatype PropertyRow = PropertyRow(
    id: int, categoryId: int, titleEn: Option<string>, titleAr: Option<string>,
    videoUrl: Option<string>, location: Option<string>)

  /** The query selects no created_at for these rows. */
  datatype PropertyImageRow = PropertyImageRow(
    id: int, propertyId: int, imageUrl: string, titleEn: Option<string>,
    titleAr: Option<string>, sortOrder: int)

  // ----- the response -----

  /**
   * One element of a category's `images` list. A direct image carries its
   * numeric row id, file name and original name; a property-derived entry
   * carries the text id "prop_<image id>", a null file name, the property's
   * location and no created_at.
   */
  datatype ImageEntry =
    | DirectImage(
        rowId: int, title: Option<string>, titleAr: Option<string>, titleEn: Option<string>,
        filename: Option<string>, originalName: Option<string>, imageUrl: Option<string>,
        videoUrl: Option<string>, createdAt: string)
    | PropertyImage(
        propId: string, title: Option<string>, titleAr: Option<string>, titleEn: Option<string>,
        filename: Option<string>, imageUrl: Option<string>, videoUrl: Option<string>,
        location: Option<string>)

  datatype CategoryView = CategoryView(
    id: int, name: string, nameAr: Option<string>, nameEn: string,
    description: Option<string>, descriptionAr: Option<string>, descriptionEn: Option<string>,
    createdAt: string, updatedAt: string, images: seq<ImageEntry>)

  const UploadsPrefix: string := "/uploads/"
  const PropertyIdPrefix: string := "prop_"

  /**
   * `image_url || (filename ? "/uploads/" + filename : null)`: the explicit
   * URL when it is non-empty, else the upload path when there is a non-empty
   * file name, else null. A URL given out is never empty.
   */
  function ImageUrl(imageUrl: Option<string>, filename: Option<string>): (r: Option<string>)
    ensures Truthy(imageUrl) ==> r == imageUrl
    ensures !Truthy(imageUrl) ==> (r.Some? <==> Truthy(filename))
    ensures !Truthy(imageUrl) && Truthy(filename) ==> r.value == UploadsPrefix + filename.value
    ensures r.Some? ==> Truthy(r)
  {
    if Truthy(imageUrl) then imageUrl
    else if Truthy(filename) then Some(UploadsPrefix + filename.value)
    else None
  }

  /**
   * The entry for a direct image row (the same rule in both branches of the
   * handler): it keeps the row's id, file name, original name, Arabic title,
   * video and creation time, its title doubles as the English title, its URL
   * is the one `ImageUrl` picks, and a row with a stored file always gets a
   * non-empty URL.
   */
  function DirectEntry(img: ImageRow): (e: ImageEntry)
    ensures e.DirectImage? && e.rowId == img.id && e.filename == img.filename
    ensures e.title == img.title && e.titleEn == img.title && e.titleAr == img.titleAr
    ensures e.originalName == img.originalName && e.videoUrl == img.videoUrl && e.createdAt == img.createdAt
    ensures e.imageUrl == ImageUrl(img.imageUrl, img.filename)
    ensures e.imageUrl.Some? ==> Truthy(e.imageUrl)
    ensures Truthy(img.filename) ==> e.imageUrl.Some?
  {
    DirectImage(img.id, img.title, img.titleAr, img.title, img.filename, img.originalName,
                ImageUrl(img.imageUrl, img.filename), img.videoUrl, img.createdAt)
  }

  /**
   * The entry for one image of a property (what it carries is stated by
   * `PropertyEntryFields`).
   */
  function PropertyEntry(p: PropertyRow, img: PropertyImageRow): ImageEntry
  {
    PropertyImage(PropertyIdPrefix + Decimal(img.id), p.titleEn, p.titleAr, p.titleEn, None,
                  Some(img.imageUrl), p.videoUrl, p.location)
  }

  /**
   * A property-derived entry has a "prop_" id naming the image, the image's
   * URL, no file name, and the property's titles, video and location.
   */
  lemma PropertyEntryFields(p: PropertyRow, img: PropertyImageRow)
    ensures var e := PropertyEntry(p, img);
      && e.PropertyImage? && e.filename == None && e.imageUrl == Some(img.imageUrl)
      && |e.propId| > |PropertyIdPrefix| && e.propId[..|PropertyIdPrefix|] == PropertyIdPrefix
      && e.propId[|PropertyIdPrefix|..] == Decimal(img.id)
      && e.title == p.titleEn && e.titleEn == p.titleEn && e.titleAr == p.titleAr
      && e.videoUrl == p.videoUrl && e.location == p.location
  {
    var id := PropertyEntry(p, img).propId;
    assert id == PropertyIdPrefix + Decimal(img.id);
    assert id[..|PropertyIdPrefix|] == PropertyIdPrefix;
    assert id[|PropertyIdPrefix|..] == Decimal(img.id);
  }

  // keys and projections handed to the grouping loops
  function ImageCategory(img: ImageRow): int { img.categoryId }
  function ImageProperty(img: PropertyImageRow): int { img.propertyId }
  function AsIs(img: PropertyImageRow): PropertyImageRow { img }

  // ----- reference definitions -----

  /** A category's direct images, in input order. */
  function DirectImagesOf(images: seq<ImageRow>, cid: int): seq<ImageEntry>
  {
    Select(images, ImageCategory, cid, DirectEntry)
  }

  /** A property's image rows, in input order. */
  function ImagesOfProperty(pis: seq<PropertyImageRow>, pid: int): seq<PropertyImageRow>
  {
    Select(pis, ImageProperty, pid, AsIs)
  }

  /** One entry per image of property `p`, in the given order. */
  function PropertyEntries(p: PropertyRow, imgs: seq<PropertyImageRow>): seq<ImageEntry>
  {
    Map(imgs, img => PropertyEntry(p, img))
  }

  /** `xs.map(f)`. */
  function Map<A, B>(xs: seq<A>, f: A -> B): seq<B>
  {
    seq(|xs|, k requires 0 <= k < |xs| => f(xs[k]))
  }

  /** Mapping one more element adds its image at the end. */
  lemma MapSnoc<A, B>(xs: seq<A>, f: A -> B, j: nat)
    requires j < |xs|
    ensures Map(xs[..j + 1], f) == Map(xs[..j], f) + [f(xs[j])]
  {
    var longer, shorter := Map(xs[..j + 1], f), Map(xs[..j], f);
    forall k | 0 <= k < j ensures longer[k] == shorter[k] {
      assert xs[..j + 1][k] == xs[k] == xs[..j][k];
    }
    assert longer[j] == f(xs[j]) by {
      assert xs[..j + 1][j] == xs[j];
    }
  }

  /** The property-derived entries of category `cid`: property by property, in input order. */
  function PropertyImagesOf(props: seq<PropertyRow>, pis: seq<PropertyImageRow>, cid: int): seq<ImageEntry>
  {
    if props == [] then []
    else
      PropertyImagesOf(props[..|props| - 1], pis, cid) + EntriesFrom(props[|props| - 1], pis, cid)
  }

  /** What property `p` adds to the list of category `cid`: its entries if it belongs there, else nothing. */
  function EntriesFrom(p: PropertyRow, pis: seq<PropertyImageRow>, cid: int): seq<ImageEntry>
  {
    if p.categoryId == cid then PropertyEntries(p, ImagesOfProperty(pis, p.id)) else []
  }

  /** The `images` list of category `cid`: direct images first, then property-derived entries. */
  function CategoryImages(cid: int, images: seq<ImageRow>, props: seq<PropertyRow>,
                          pis: seq<PropertyImageRow>): seq<ImageEntry>
  {
    DirectImagesOf(images, cid) + PropertyImagesOf(props, pis, cid)
  }

  /** The view of one category with the given images. */
  function ViewOf(c: CategoryRow, imgs: seq<ImageEntry>): CategoryView
  {
    CategoryView(c.id, c.name, c.nameAr, c.name, c.description, c.descriptionAr, c.description,
                 c.createdAt, c.updatedAt, imgs)
  }

  /** The response, category by category. */
  function Views(cats: seq<CategoryRow>, images: seq<ImageRow>, props: seq<PropertyRow>,
                 pis: seq<PropertyImageRow>): seq<CategoryView>
  {
    seq(|cats|, i requires 0 <= i < |cats| => ViewOf(cats[i], CategoryImages(cats[i].id, images, props, pis)))
  }

  /**
   * What the whole read computes from the four query outcomes: None when a
   * query that is reached fails. No category means an empty list without
   * further queries; no property means no property-images query.
   */
  function CategoriesResult(catsQ: Query<CategoryRow>, imagesQ: Query<ImageRow>,
                            propsQ: Query<PropertyRow>, pisQ: Query<PropertyImageRow>)
    : Option<seq<CategoryView>>
  {
    match catsQ
    case QueryError => None
    case Rows(cats) =>
      if cats == [] then Some([])
      else match imagesQ
        case QueryError => None
        case Rows(images) =>
          match propsQ
          case QueryError => None
          case Rows(props) =>
            if props == [] then Some(Views(cats, images, [], []))
            else match pisQ
              case QueryError => None
              case Rows(pis) => Some(Views(cats, images, props, pis))
  }

  // ----- the server's computation -----

  /** `categories.map(category => ({ ..., images: imagesByCategory[category.id] || [] }))` */
  function BuildViews(cats: seq<CategoryRow>, byCat: map<int, seq<ImageEntry>>): (r: seq<CategoryView>)
    ensures |r| == |cats|
    ensures forall i :: 0 <= i < |cats| ==>
      r[i].id == cats[i].id && r[i].images == Lookup(byCat, cats[i].id) && r[i].nameEn == cats[i].name
  {
    seq(|cats|, i requires 0 <= i < |cats| => ViewOf(cats[i], Lookup(byCat, cats[i].id)))
  }

  /**
   * The inner loop over one property's images: each is pushed, as a
   * property-derived entry, onto the list of the property's category; no
   * other list changes.
   */
  method PushPropertyImages(byCat: map<int, seq<ImageEntry>>, p: PropertyRow, imgs: seq<PropertyImageRow>)
    returns (r: map<int, seq<ImageEntry>>)
    ensures Lookup(r, p.categoryId) == Lookup(byCat, p.categoryId) + PropertyEntries(p, imgs)
    ensures forall cid :: cid != p.categoryId ==> Lookup(r, cid) == Lookup(byCat, cid)
  {
    r := byCat;
    var j := 0;
    while j < |imgs|
      invariant 0 <= j <= |imgs|
      invariant forall cid :: cid != p.categoryId ==> Lookup(r, cid) == Lookup(byCat, cid)
      invariant Lookup(r, p.categoryId) == Lookup(byCat, p.categoryId) + PropertyEntries(p, imgs[..j])
    {
      ghost var before := r;
      r := Push(r, p.categoryId, PropertyEntry(p, imgs[j]));
      PushStep(byCat, before, r, p, imgs, j);
      j := j + 1;
    }
    assert imgs[..j] == imgs;
  }

  /** One pass of the inner loop keeps its invariants. */
  lemma PushStep(byCat: map<int, seq<ImageEntry>>, before: map<int, seq<ImageEntry>>, r: map<int, seq<ImageEntry>>,
                 p: PropertyRow, imgs: seq<PropertyImageRow>, j: nat)
    requires j < |imgs|
    requires r == Push(before, p.categoryId, PropertyEntry(p, imgs[j]))
    requires forall cid :: cid != p.categoryId ==> Lookup(before, cid) == Lookup(byCat, cid)
    requires Lookup(before, p.categoryId) == Lookup(byCat, p.categoryId) + PropertyEntries(p, imgs[..j])
    ensures forall cid :: cid != p.categoryId ==> Lookup(r, cid) == Lookup(byCat, cid)
    ensures Lookup(r, p.categoryId) == Lookup(byCat, p.categoryId) + PropertyEntries(p, imgs[..j + 1])
  {
    PropertyEntriesStep(p, imgs, j);
    AppendAssoc(Lookup(byCat, p.categoryId), PropertyEntries(p, imgs[..j]), [PropertyEntry(p, imgs[j])]);
  }

  /** One pass of the loop over properties keeps its invariant. */
  lemma AppendStep(byCat: map<int, seq<ImageEntry>>, before: map<int, seq<ImageEntry>>, r: map<int, seq<ImageEntry>>,
                   props: seq<PropertyRow>, pis: seq<PropertyImageRow>, i: nat, imgs: seq<PropertyImageRow>)
    requires i < |props|
    requires imgs == ImagesOfProperty(pis, props[i].id)
    requires forall cid :: Lookup(before, cid) == Lookup(byCat, cid) + PropertyImagesOf(props[..i], pis, cid)
    requires Lookup(r, props[i].categoryId) == Lookup(before, props[i].categoryId) + PropertyEntries(props[i], imgs)
    requires forall cid :: cid != props[i].categoryId ==> Lookup(r, cid) == Lookup(before, cid)
    ensures forall cid :: Lookup(r, cid) == Lookup(byCat, cid) + PropertyImagesOf(props[..i + 1], pis, cid)
  {
    var p := props[i];
    forall cid ensures Lookup(r, cid) == Lookup(byCat, cid) + PropertyImagesOf(props[..i + 1], pis, cid) {
      if cid == p.categoryId {
        assert EntriesFrom(p, pis, cid) == PropertyEntries(p, ImagesOfProperty(pis, p.id));
      } else {
        assert EntriesFrom(p, pis, cid) == [];
        assert Lookup(r, cid) == Lookup(before, cid);
      }
      AppendStepAt(Lookup(byCat, cid), Lookup(before, cid), Lookup(r, cid), props, pis, i, cid);
    }
  }

  /** The same, for the list of one category. */
  lemma AppendStepAt(start: seq<ImageEntry>, before: seq<ImageEntry>, after: seq<ImageEntry>,
                     props: seq<PropertyRow>, pis: seq<PropertyImageRow>, i: nat, cid: int)
    requires i < |props|
    requires before == start + PropertyImagesOf(props[..i], pis, cid)
    requires after == before + EntriesFrom(props[i], pis, cid)
    ensures after == start + PropertyImagesOf(props[..i + 1], pis, cid)
  {
    PropertyImagesOfStep(props, pis, cid, i);
    AppendAssoc(start, PropertyImagesOf(props[..i], pis, cid), EntriesFrom(props[i], pis, cid));
  }

  /** One more image, one more entry at the end. */
  lemma PropertyEntriesStep(p: PropertyRow, imgs: seq<PropertyImageRow>, j: nat)
    requires j < |imgs|
    ensures PropertyEntries(p, imgs[..j + 1]) == PropertyEntries(p, imgs[..j]) + [PropertyEntry(p, imgs[j])]
  {
    MapSnoc(imgs, img => PropertyEntry(p, img), j);
  }

  /**
   * The loop over properties: for each property, its images (from the
   * dictionary built from the property-image rows) are pushed onto its
   * category's list.
   */
  method AppendPropertyEntries(byCat: map<int, seq<ImageEntry>>, props: seq<PropertyRow>,
                               byProp: map<int, seq<PropertyImageRow>>, ghost pis: seq<PropertyImageRow>)
    returns (r: map<int, seq<ImageEntry>>)
    requires forall pid :: Lookup(byProp, pid) == ImagesOfProperty(pis, pid)
    ensures forall cid :: Lookup(r, cid) == Lookup(byCat, cid) + PropertyImagesOf(props, pis, cid)
  {
    r := byCat;
    var i := 0;
    while i < |props|
      invariant 0 <= i <= |props|
      invariant forall cid :: Lookup(r, cid) == Lookup(byCat, cid) + PropertyImagesOf(props[..i], pis, cid)
    {
      r := AppendProperty(byCat, r, props, byProp, pis, i);
      i := i + 1;
    }
    assert props[..|props|] == props;
  }

  /** One pass of the loop over properties: property `props[i]`'s images are pushed. */
  method AppendProperty(byCat: map<int, seq<ImageEntry>>, before: map<int, seq<ImageEntry>>, props: seq<PropertyRow>,
                        byProp: map<int, seq<PropertyImageRow>>, ghost pis: seq<PropertyImageRow>, i: nat)
    returns (r: map<int, seq<ImageEntry>>)
    requires i < |props|
    requires forall pid :: Lookup(byProp, pid) == ImagesOfProperty(pis, pid)
    requires forall cid :: Lookup(before, cid) == Lookup(byCat, cid) + PropertyImagesOf(props[..i], pis, cid)
    ensures forall cid :: Lookup(r, cid) == Lookup(byCat, cid) + PropertyImagesOf(props[..i + 1], pis, cid)
  {
    var imgs := Lookup(byProp, props[i].id);
    r := PushPropertyImages(before, props[i], imgs);
    AppendStep(byCat, before, r, props, pis, i, imgs);
  }

  /**
   * The read on a cache miss: the queries in the server's order, each
   * failure ending the computation, then the dictionary-filling loops and the
   * final map. Equal to `CategoriesResult`.
   */
  method Compute(catsQ: Query<CategoryRow>, imagesQ: Query<ImageRow>,
                 propsQ: Query<PropertyRow>, pisQ: Query<PropertyImageRow>)
    returns (r: Option<seq<CategoryView>>)
    ensures r == CategoriesResult(catsQ, imagesQ, propsQ, pisQ)
  {
    if catsQ.QueryError? {
      return None;
    }
    var cats := catsQ.rows;
    if |cats| == 0 {
      return Some([]);
    }
    if imagesQ.QueryError? {
      return None;
    }
    var images := imagesQ.rows;
    if propsQ.QueryError? {
      return None;
    }
    var props := propsQ.rows;
    if |props| == 0 {
      var byCat := GroupInto(map[], images, ImageCategory, DirectEntry);
      r := Some(BuildViews(cats, byCat));
      BuildViewsMatches(cats, byCat, images, [], []);
      return;
    }
    if pisQ.QueryError? {
      return None;
    }
    var pis := pisQ.rows;
    var byProp := GroupInto(map[], pis, ImageProperty, AsIs);
    var byCat := GroupInto(map[], images, ImageCategory, DirectEntry);
    byCat := AppendPropertyEntries(byCat, props, byProp, pis);
    r := Some(BuildViews(cats, byCat));
    BuildViewsMatches(cats, byCat, images, props, pis);
  }

  /** The final map over the dictionary gives the reference views. */
  lemma BuildViewsMatches(cats: seq<CategoryRow>, byCat: map<int, seq<ImageEntry>>,
                          images: seq<ImageRow>, props: seq<PropertyRow>, pis: seq<PropertyImageRow>)
    requires forall cid :: Lookup(byCat, cid) == CategoryImages(cid, images, props, pis)
    ensures BuildViews(cats, byCat) == Views(cats, images, props, pis)
  {
  }

  // ----- properties of the reference definitions -----

  /** The property-derived entries of a concatenation of property lists. */
  lemma {:induction false} PropertyImagesOfAppend(a: seq<PropertyRow>, b: seq<PropertyRow>,
                                                  pis: seq<PropertyImageRow>, cid: int)
    ensures PropertyImagesOf(a + b, pis, cid) == PropertyImagesOf(a, pis, cid) + PropertyImagesOf(b, pis, cid)
    decreases |b|
  {
    if b == [] {
      assert a + b == a;
    } else {
      var init, last := b[..|b| - 1], b[|b| - 1];
      assert b == init + [last];
      assert a + b == (a + init) + [last];
      PropertyImagesOfAppend(a, init, pis, cid);
      PropertyImagesOfSnoc(a + init, last, pis, cid);
      PropertyImagesOfSnoc(init, last, pis, cid);
      var pa, pinit, added := PropertyImagesOf(a, pis, cid), PropertyImagesOf(init, pis, cid), EntriesFrom(last, pis, cid);
      AppendAssoc(pa, pinit, added);
    }
  }

  /** One more property at the end adds its entries at the end. */
  lemma PropertyImagesOfSnoc(props: seq<PropertyRow>, p: PropertyRow, pis: seq<PropertyImageRow>, cid: int)
    ensures PropertyImagesOf(props + [p], pis, cid) == PropertyImagesOf(props, pis, cid) + EntriesFrom(p, pis, cid)
  {
    assert (props + [p])[..|props|] == props;
  }

  /** Taking one more property adds its entries, to its own category only. */
  lemma {:induction false} PropertyImagesOfStep(props: seq<PropertyRow>, pis: seq<PropertyImageRow>, cid: int, i: nat)
    requires i < |props|
    ensures PropertyImagesOf(props[..i + 1], pis, cid)
         == PropertyImagesOf(props[..i], pis, cid)
            + EntriesFrom(props[i], pis, cid)
  {
    assert props[..i + 1][..i] == props[..i];
  }

  /** A property with no images adds no entry: dropping it changes nothing. */
  lemma {:induction false} ImagelessPropertyAddsNothing(props: seq<PropertyRow>, pis: seq<PropertyImageRow>, cid: int, j: nat)
    requires j < |props|
    requires ImagesOfProperty(pis, props[j].id) == []
    ensures PropertyImagesOf(props, pis, cid) == PropertyImagesOf(props[..j] + props[j + 1..], pis, cid)
  {
    var pre, p, post := props[..j], props[j], props[j + 1..];
    assert props == (pre + [p]) + post;
    assert EntriesFrom(p, pis, cid) == [];
    PropertyImagesOfAppend(pre + [p], post, pis, cid);
    PropertyImagesOfSnoc(pre, p, pis, cid);
    PropertyImagesOfAppend(pre, post, pis, cid);
  }

  /**
   * Every property-derived entry of category `cid` is the entry of an image
   * row of a property that belongs to `cid`.
   */
  lemma {:induction false} PropertyEntryProvenance(props: seq<PropertyRow>, pis: seq<PropertyImageRow>,
                                                   cid: int, n: nat)
    requires n < |PropertyImagesOf(props, pis, cid)|
    ensures exists j, m :: 0 <= j < |props| && 0 <= m < |pis| && props[j].categoryId == cid
                           && pis[m].propertyId == props[j].id
                           && PropertyImagesOf(props, pis, cid)[n] == PropertyEntry(props[j], pis[m])
    decreases |props|
  {
    var init := props[..|props| - 1];
    var p := props[|props| - 1];
    var prefix := PropertyImagesOf(init, pis, cid);
    if n < |prefix| {
      PropertyEntryProvenance(init, pis, cid, n);
      var j, m :| 0 <= j < |init| && 0 <= m < |pis| && init[j].categoryId == cid
                  && pis[m].propertyId == init[j].id
                  && prefix[n] == PropertyEntry(init[j], pis[m]);
      assert init[j] == props[j];
    } else {
      var imgs := ImagesOfProperty(pis, p.id);
      var q := n - |prefix|;
      assert p.categoryId == cid;
      assert PropertyImagesOf(props, pis, cid) == prefix + PropertyEntries(p, imgs);
      SelectOrigin(pis, ImageProperty, p.id, AsIs, q);
      var m :| 0 <= m < |pis| && ImageProperty(pis[m]) == p.id && Count(pis[..m], ImageProperty, p.id) == q
               && imgs[q] == AsIs(pis[m]);
      assert PropertyImagesOf(props, pis, cid)[n] == PropertyEntry(props[|props| - 1], pis[m]);
    }
  }

  /**
   * Provenance of a category's entries: the first ones are the direct images
   * of that category, the rest come from images of that category's
   * properties. No entry lands in another category's list.
   */
  lemma CategoryEntryProvenance(cid: int, images: seq<ImageRow>, props: seq<PropertyRow>,
                                pis: seq<PropertyImageRow>, n: nat)
    requires n < |CategoryImages(cid, images, props, pis)|
    ensures n < |DirectImagesOf(images, cid)| ==>
              exists j :: 0 <= j < |images| && images[j].categoryId == cid
                          && CategoryImages(cid, images, props, pis)[n] == DirectEntry(images[j])
    ensures n >= |DirectImagesOf(images, cid)| ==>
              exists j, m :: 0 <= j < |props| && 0 <= m < |pis| && props[j].categoryId == cid
                             && pis[m].propertyId == props[j].id
                             && CategoryImages(cid, images, props, pis)[n] == PropertyEntry(props[j], pis[m])
  {
    var direct := DirectImagesOf(images, cid);
    if n < |direct| {
      SelectOrigin(images, ImageCategory, cid, DirectEntry, n);
    } else {
      PropertyEntryProvenance(props, pis, cid, n - |direct|);
    }
  }

  /**
   * Every direct image row lands in its own category's list, at the position
   * given by the number of earlier rows of that category: exactly once, and
   * in input order.
   */
  lemma DirectImageLands(images: seq<ImageRow>, props: seq<PropertyRow>, pis: seq<PropertyImageRow>, j: nat)
    requires j < |images|
    ensures var cid := images[j].categoryId;
            var pos := Count(images[..j], ImageCategory, cid);
            pos < |DirectImagesOf(images, cid)|
            && CategoryImages(cid, images, props, pis)[pos] == DirectEntry(images[j])
  {
    SelectRank(images, ImageCategory, DirectEntry, j);
  }

  /** The property-derived entries are empty iff no property of `cid` has an image. */
  lemma {:induction false} PropertyImagesOfEmpty(props: seq<PropertyRow>, pis: seq<PropertyImageRow>, cid: int)
    ensures PropertyImagesOf(props, pis, cid) == [] <==>
            forall j :: 0 <= j < |props| && props[j].categoryId == cid ==> ImagesOfProperty(pis, props[j].id) == []
    decreases |props|
  {
    if props != [] {
      var init := props[..|props| - 1];
      PropertyImagesOfEmpty(init, pis, cid);
      forall j | 0 <= j < |init| ensures init[j] == props[j] { }
    }
  }

  /**
   * A category's `images` list is empty iff no direct image row belongs to it
   * and no image row belongs to any of its properties.
   */
  lemma CategoryImagesEmpty(cid: int, images: seq<ImageRow>, props: seq<PropertyRow>, pis: seq<PropertyImageRow>)
    ensures CategoryImages(cid, images, props, pis) == [] <==>
            (forall j :: 0 <= j < |images| ==> images[j].categoryId != cid)
            && (forall j, m :: 0 <= j < |props| && 0 <= m < |pis| && props[j].categoryId == cid
                               ==> pis[m].propertyId != props[j].id)
  {
    SelectEmpty(images, ImageCategory, cid, DirectEntry);
    PropertyImagesOfEmpty(props, pis, cid);
    forall j | 0 <= j < |props|
      ensures ImagesOfProperty(pis, props[j].id) == [] <==> forall m :: 0 <= m < |pis| ==> pis[m].propertyId != props[j].id
    {
      SelectEmpty(pis, ImageProperty, props[j].id, AsIs);
    }
  }

  /** property_images rows ordered by property id, then sort_order (the query's ORDER BY). */
  predicate SortedByPropertyThenOrder(pis: seq<PropertyImageRow>)
  {
    forall i, j :: 0 <= i < j < |pis| ==>
      pis[i].propertyId < pis[j].propertyId
      || (pis[i].propertyId == pis[j].propertyId && pis[i].sortOrder <= pis[j].sortOrder)
  }

  /** With rows in query order, a property's images are taken in ascending sort_order. */
  lemma PropertyImagesInSortOrder(pis: seq<PropertyImageRow>, pid: int, a: nat, b: nat)
    requires SortedByPropertyThenOrder(pis)
    requires a < b < |ImagesOfProperty(pis, pid)|
    ensures ImagesOfProperty(pis, pid)[a].sortOrder <= ImagesOfProperty(pis, pid)[b].sortOrder
  {
    SelectKeepsOrder(pis, ImageProperty, pid, AsIs, a, b);
  }

  /** Entries of different property images never share an id. */
  lemma PropertyEntryIdsDistinct(p: PropertyRow, q: PropertyRow, x: PropertyImageRow, y: PropertyImageRow)
    ensures PropertyEntry(p, x).propId == PropertyEntry(q, y).propId ==> x.id == y.id
  {
    if PropertyEntry(p, x).propId == PropertyEntry(q, y).propId {
      PrefixInjective(PropertyIdPrefix, Decimal(x.id), Decimal(y.id));
    }
    DecimalInjective(x.id, y.id);
  }

  /**
   * The shape of the response: one view per category, in category order;
   * name_en and description_en copy name and description; `images` is the
   * category's direct images followed by its property-derived entries, and
   * is `[]` exactly when the category has neither.
   */
  lemma ViewsShape(cats: seq<CategoryRow>, images: seq<ImageRow>, props: seq<PropertyRow>,
                   pis: seq<PropertyImageRow>, i: nat)
    requires i < |cats|
    ensures |Views(cats, images, props, pis)| == |cats|
    ensures var v := Views(cats, images, props, pis)[i];
            && v.id == cats[i].id && v.name == v.nameEn == cats[i].name
            && v.description == v.descriptionEn == cats[i].description
            && v.nameAr == cats[i].nameAr && v.descriptionAr == cats[i].descriptionAr
            && v.createdAt == cats[i].createdAt && v.updatedAt == cats[i].updatedAt
            && v.images == DirectImagesOf(images, cats[i].id) + PropertyImagesOf(props, pis, cats[i].id)
            && (v.images == [] <==>
                  (forall j :: 0 <= j < |images| ==> images[j].categoryId != cats[i].id)
                  && (forall j, m :: 0 <= j < |props| && 0 <= m < |pis| && props[j].categoryId == cats[i].id
                                     ==> pis[m].propertyId != props[j].id))
  {
    CategoryImagesEmpty(cats[i].id, images, props, pis);
  }
}
