/**
 * The admin routes that change categories and images, the public category
 * listing in front of the cache, and the upload pipeline (field name, type
 * filter, size limit, destination folder). The server's state is the two
 * tables it writes, their AUTOINCREMENT counters, the set of file paths on
 * disk and the listing cache. Every mutating route passes the bearer-token
 * gate first; every route that succeeds in changing a table clears the
 * cache, and no failing route touches it.
 *
 * A storage call that fails for a reason the server cannot foresee (a locked
 * database, a full disk) is an input flag. The JWT signature check, the
 * clock readings and the name multer gives a stored file are parameters.
 */
module Server {
  import opened Values
  import opened Strings
  import Auth
  import UploadFilter
  import Aggregation
  import Cache

  /** A row of `categories`; `name` is NOT NULL. */
  datatype Category = Category(
    name: string, nameAr: Option<string>, description: Option<string>, descriptionAr: Option<string>)

  /** The JSON body of a category create or update. */
  datatype CategoryForm = CategoryForm(
    name: Option<string>, nameAr: Option<string>, description: Option<string>, descriptionAr: Option<string>)

  /** A row of `images`; `filename` and `original_name` are NOT NULL. */
  datatype ImageRecord = ImageRecord(
    categoryId: int, filename: string, originalName: string, title: Option<string>,
    titleAr: Option<string>, videoUrl: Option<string>, fileSize: int, mimeType: string,
    imageUrl: Option<string>)

  /**
   * The text fields of an upload. `categoryId` is `None` when the field is
   * missing or empty (falsy), otherwise the id it names.
   */
  datatype UploadForm = UploadForm(
    categoryId: Option<int>, title: Option<string>, titleAr: Option<string>,
    videoUrl: Option<string>, imageUrl: Option<string>)

  /** The file part of a multipart upload, as the client sent it. */
  datatype FilePart = FilePart(fieldName: string, originalName: string, size: int, mimeType: string)

  /** The only file field the upload route takes. */
  const ImageField: string := "image"

  /** The size limit when none (or 0, or a non-number) is configured: 10 MiB. */
  const DefaultMaxFileSize: int := 10 * 1024 * 1024

  /**
   * `parseInt(MAX_FILE_SIZE) || 10 MiB`; `None` stands for an unset or
   * non-numeric setting. The limit is never 0: a non-zero setting is used as
   * it is, and any other limit is the default.
   */
  function MaxFileSize(configured: Option<int>): (limit: int)
    ensures limit != 0
    ensures configured.Some? && configured.value != 0 ==> limit == configured.value
    ensures limit != DefaultMaxFileSize ==> configured == Some(limit)
  {
    if configured.Some? && configured.value != 0 then configured.value else DefaultMaxFileSize
  }

  /**
   * `path.join(dir, name)` for a plain name (normalisation is not modelled):
   * the directory, one slash, the name.
   */
  function JoinPath(dir: string, name: string): (p: string)
    ensures |p| == |dir| + 1 + |name|
    ensures p[..|dir|] == dir && p[|dir|] == '/' && p[|dir| + 1..] == name
  {
    var p := dir + "/" + name;
    assert p[|dir| + 1..] == name;
    p
  }

  /** In one directory, different names give different paths. */
  lemma JoinPathInjective(dir: string, a: string, b: string)
    requires JoinPath(dir, a) == JoinPath(dir, b)
    ensures a == b
  {
    assert a == JoinPath(dir, a)[|dir| + 1..];
  }

  /**
   * The folder multer stores an upload in: `category_<id>` under the uploads
   * directory when a truthy `category_id` field arrived before the file part,
   * the uploads directory itself otherwise.
   */
  function UploadFolder(uploadsDir: string, categoryId: Option<int>, categoryFirst: bool): (folder: string)
    ensures |folder| >= |uploadsDir| && folder[..|uploadsDir|] == uploadsDir
    ensures folder == uploadsDir <==> !(categoryFirst && categoryId.Some?)
  {
    if categoryFirst && categoryId.Some? then JoinPath(uploadsDir, "category_" + Decimal(categoryId.value))
    else uploadsDir
  }

  /** Uploads for different categories go to different folders. */
  lemma UploadFolderPerCategory(uploadsDir: string, a: int, b: int)
    requires a != b
    ensures UploadFolder(uploadsDir, Some(a), true) != UploadFolder(uploadsDir, Some(b), true)
  {
    var fa, fb := "category_" + Decimal(a), "category_" + Decimal(b);
    if JoinPath(uploadsDir, fa) == JoinPath(uploadsDir, fb) {
      JoinPathInjective(uploadsDir, fa, fb);
      PrefixInjective("category_", Decimal(a), Decimal(b));
      DecimalInjective(a, b);
    }
  }

  /**
   * A file stored in a category folder is not the file the delete routes
   * look for: they join the uploads directory with the bare file name, which
   * is a shorter path.
   */
  lemma CategoryFolderFileMissedOnDelete(uploadsDir: string, categoryId: int, name: string)
    ensures JoinPath(UploadFolder(uploadsDir, Some(categoryId), true), name) != JoinPath(uploadsDir, name)
  {
    var folder := UploadFolder(uploadsDir, Some(categoryId), true);
    assert |folder| > |uploadsDir|;
  }

  /** A file stored in the uploads directory itself is the one the delete routes remove. */
  lemma RootFileFoundOnDelete(uploadsDir: string, categoryId: Option<int>, categoryFirst: bool, name: string)
    requires !categoryFirst || categoryId.None?
    ensures JoinPath(UploadFolder(uploadsDir, categoryId, categoryFirst), name) == JoinPath(uploadsDir, name)
  {
  }

  /** The paths the category delete removes: one per image row of the category with a non-empty file name. */
  function CategoryFiles(uploadsDir: string, images: map<int, ImageRecord>, ids: set<int>): set<string>
  {
    set k | k in ids && k in images && images[k].filename != "" :: JoinPath(uploadsDir, images[k].filename)
  }

  /** Adding one row id to the set adds at most that row's path. */
  lemma CategoryFilesAdd(uploadsDir: string, images: map<int, ImageRecord>, ids: set<int>, k: int)
    requires k in images
    ensures CategoryFiles(uploadsDir, images, ids + {k})
         == CategoryFiles(uploadsDir, images, ids)
          + (if images[k].filename != "" then {JoinPath(uploadsDir, images[k].filename)} else {})
  {
    var l := CategoryFiles(uploadsDir, images, ids + {k});
    var r := CategoryFiles(uploadsDir, images, ids)
           + (if images[k].filename != "" then {JoinPath(uploadsDir, images[k].filename)} else {});
    forall p | p in l ensures p in r {
      var j :| j in ids + {k} && j in images && images[j].filename != "" && p == JoinPath(uploadsDir, images[j].filename);
      if j != k {
        assert j in ids;
      }
    }
  }

  /** Some element of a non-empty set (the order the rows come back in is not modelled). */
  method Pick<T>(s: set<T>) returns (x: T)
    requires s != {}
    ensures x in s
  {
    x :| x in s;
  }

  /** The row ids of a category's images. */
  function ImagesOfCategory(images: map<int, ImageRecord>, categoryId: int): (ids: set<int>)
    ensures forall k :: k in ids <==> k in images && images[k].categoryId == categoryId
  {
    set k | k in images && images[k].categoryId == categoryId
  }

  class Server {
    /** The `categories` table by id. */
    var categories: map<int, Category>
    /** The `images` table by id. */
    var images: map<int, ImageRecord>
    /** The largest id ever handed out in each table (SQLite AUTOINCREMENT). */
    var lastCategoryId: int
    var lastImageId: int
    /** The paths of the files on disk. */
    var files: set<string>

    /** `UPLOAD_PATH` and the size limit multer is configured with. */
    const uploadsDir: string
    const maxFileSize: int
    /** The file filter multer is configured with, by original file name. */
    const accepts: string -> bool
    /** The listing cache. */
    const cache: Cache.CategoriesCache

    /** Every row id was handed out by its table's counter. */
    predicate Valid()
      reads this
    {
      0 <= lastCategoryId && 0 <= lastImageId
      && (forall id :: id in categories ==> 1 <= id <= lastCategoryId)
      && (forall id :: id in images ==> 1 <= id <= lastImageId)
    }

    /** The cache holds nothing, so the next listing is computed afresh. */
    predicate CacheCleared()
      reads this, cache
    {
      cache.data == None && cache.stamp == None
    }

    /** A fresh server over empty tables and an empty cache. */
    constructor (uploadsDir: string, maxFileSize: Option<int>, allowedTypes: Option<string>, files: set<string>)
      ensures Valid() && fresh(cache) && CacheCleared()
      ensures categories == map[] && images == map[]
      ensures this.uploadsDir == uploadsDir && this.maxFileSize == MaxFileSize(maxFileSize)
      ensures forall name :: accepts(name) == UploadFilter.Accepts(name, allowedTypes)
      ensures this.files == files
    {
      this.uploadsDir := uploadsDir;
      this.maxFileSize := MaxFileSize(maxFileSize);
      accepts := name => UploadFilter.Accepts(name, allowedTypes);
      this.files := files;
      categories := map[];
      images := map[];
      lastCategoryId := 0;
      lastImageId := 0;
      cache := new Cache.CategoriesCache();
    }

    /** Where an upload with these fields lands. */
    function UploadPath(categoryId: Option<int>, categoryFirst: bool, storedName: string): string
    {
      JoinPath(UploadFolder(uploadsDir, categoryId, categoryFirst), storedName)
    }

    /** POST /api/cache/clear: behind the gate, clears the cache. */
    method ClearCacheRoute(header: Option<string>, verifies: string -> bool) returns (status: int)
      modifies cache
      ensures status == (if Auth.Check(header, verifies).Some? then Auth.Check(header, verifies).value else Ok)
      ensures status == Ok ==> CacheCleared()
      ensures status != Ok ==> unchanged(cache)
    {
      var refusal := Auth.Check(header, verifies);
      if refusal.Some? {
        return refusal.value;
      }
      cache.Clear();
      return Ok;
    }

    /**
     * GET /api/categories. A cached listing is served unless the request has
     * a truthy `t` parameter; otherwise the listing is computed from the
     * four queries, stored with the clock read after the queries
     * (`storedAt`; `now` is the reading the cache was checked
     * with) and served, or, when a query fails, 500 is answered and the
     * cache is left alone.
     */
    method GetCategories(t: Option<string>, now: int, storedAt: int,
                         catsQ: Query<Aggregation.CategoryRow>, imagesQ: Query<Aggregation.ImageRow>,
                         propsQ: Query<Aggregation.PropertyRow>, pisQ: Query<Aggregation.PropertyImageRow>)
      returns (status: int, body: Option<Cache.Snapshot>)
      modifies cache
      ensures old(cache.Get(now)).Some? && !Truthy(t) ==>
                status == Ok && body == old(cache.Get(now)) && unchanged(cache)
      ensures old(cache.Get(now)).None? || Truthy(t) ==>
                var computed := Aggregation.CategoriesResult(catsQ, imagesQ, propsQ, pisQ);
                && body == computed
                && (computed.None? ==> status == ServerError && unchanged(cache))
                && (computed.Some? ==> status == Ok && cache.data == computed && cache.stamp == Some(storedAt))
    {
      var cached := cache.Get(now);
      if cached.Some? && !Truthy(t) {
        return Ok, cached;
      }
      body := Aggregation.Compute(catsQ, imagesQ, propsQ, pisQ);
      if body.None? {
        return ServerError, None;
      }
      cache.Set(body.value, storedAt);
      status := Ok;
    }

    /**
     * POST /api/categories: behind the gate; a falsy name is refused with
     * 400; otherwise the row is inserted under the next AUTOINCREMENT id,
     * which no existing row has, and the cache is cleared.
     */
    method CreateCategory(header: Option<string>, verifies: string -> bool, form: CategoryForm, dbError: bool)
      returns (status: int, id: Option<int>)
      requires Valid()
      modifies this, cache
      ensures Valid()
      ensures images == old(images) && files == old(files) && lastImageId == old(lastImageId)
      ensures Auth.Check(header, verifies).Some? ==> status == Auth.Check(header, verifies).value
      ensures Auth.Check(header, verifies).None? && !Truthy(form.name) ==> status == BadRequest
      ensures Auth.Check(header, verifies).None? && Truthy(form.name) && dbError ==> status == ServerError
      ensures status == Ok <==> Auth.Check(header, verifies).None? && Truthy(form.name) && !dbError
      ensures status == Ok ==>
                && id == Some(old(lastCategoryId) + 1) && id.value !in old(categories)
                && categories == old(categories)[id.value := Category(form.name.value, form.nameAr, form.description, form.descriptionAr)]
                && lastCategoryId == id.value
                && CacheCleared()
      ensures status != Ok ==>
                id == None && categories == old(categories) && lastCategoryId == old(lastCategoryId) && unchanged(cache)
    {
      var refusal := Auth.Check(header, verifies);
      if refusal.Some? {
        return refusal.value, None;
      }
      if !Truthy(form.name) {
        return BadRequest, None;
      }
      if dbError {
        return ServerError, None;
      }
      var newId := lastCategoryId + 1;
      categories := categories[newId := Category(form.name.value, form.nameAr, form.description, form.descriptionAr)];
      lastCategoryId := newId;
      cache.Clear();
      return Ok, Some(newId);
    }

    /**
     * PUT /api/categories/:id: behind the gate; a falsy name is refused with
     * 400; a missing row gives 404 (no change); otherwise the row's four
     * fields are replaced and the cache is cleared.
     */
    method UpdateCategory(header: Option<string>, verifies: string -> bool, id: int, form: CategoryForm, dbError: bool)
      returns (status: int)
      requires Valid()
      modifies this, cache
      ensures Valid()
      ensures images == old(images) && files == old(files)
      ensures lastCategoryId == old(lastCategoryId) && lastImageId == old(lastImageId)
      ensures Auth.Check(header, verifies).Some? ==> status == Auth.Check(header, verifies).value
      ensures Auth.Check(header, verifies).None? && !Truthy(form.name) ==> status == BadRequest
      ensures Auth.Check(header, verifies).None? && Truthy(form.name) && dbError ==> status == ServerError
      ensures Auth.Check(header, verifies).None? && Truthy(form.name) && !dbError && id !in old(categories) ==>
                status == NotFound
      ensures status == Ok <==>
                Auth.Check(header, verifies).None? && Truthy(form.name) && !dbError && id in old(categories)
      ensures status == Ok ==>
                categories == old(categories)[id := Category(form.name.value, form.nameAr, form.description, form.descriptionAr)]
                && CacheCleared()
      ensures status != Ok ==> categories == old(categories) && unchanged(cache)
    {
      var refusal := Auth.Check(header, verifies);
      if refusal.Some? {
        return refusal.value;
      }
      if !Truthy(form.name) {
        return BadRequest;
      }
      if dbError {
        return ServerError;
      }
      if id !in categories {
        return NotFound;
      }
      categories := categories[id := Category(form.name.value, form.nameAr, form.description, form.descriptionAr)];
      cache.Clear();
      return Ok;
    }

    /**
     * Removes from disk the file of every listed image row that has a
     * non-empty file name and whose path exists.
     */
    method RemoveCategoryFiles(ids: set<int>)
      requires forall k :: k in ids ==> k in images
      modifies this
      ensures files == old(files) - CategoryFiles(uploadsDir, images, ids)
      ensures categories == old(categories) && images == old(images)
      ensures lastCategoryId == old(lastCategoryId) && lastImageId == old(lastImageId)
    {
      var pending := ids;
      ghost var done: set<int> := {};
      while pending != {}
        invariant pending + done == ids && pending !! done
        invariant files == old(files) - CategoryFiles(uploadsDir, images, done)
        invariant categories == old(categories) && images == old(images)
        invariant lastCategoryId == old(lastCategoryId) && lastImageId == old(lastImageId)
        decreases pending
      {
        var k := Pick(pending);
        var name := images[k].filename;
        if name != "" {
          var path := JoinPath(uploadsDir, name);
          if path in files {
            files := files - {path};
          }
        }
        CategoryFilesAdd(uploadsDir, images, done, k);
        pending := pending - {k};
        done := done + {k};
      }
    }

    /**
     * DELETE /api/categories/:id: behind the gate; reads the category's
     * image rows (500 when that fails, nothing removed), removes their files
     * from the uploads directory, then deletes the category row: 500 when
     * that fails and 404 when there was none, with the files already gone.
     * The image rows stay, because foreign-key enforcement is never switched
     * on and the declared cascade does not run.
     */
    method DeleteCategory(header: Option<string>, verifies: string -> bool, id: int, selectError: bool, deleteError: bool)
      returns (status: int)
      requires Valid()
      modifies this, cache
      ensures Valid()
      ensures images == old(images)
      ensures lastCategoryId == old(lastCategoryId) && lastImageId == old(lastImageId)
      ensures Auth.Check(header, verifies).Some? ==> status == Auth.Check(header, verifies).value
      ensures Auth.Check(header, verifies).None? && (selectError || deleteError) ==> status == ServerError
      ensures Auth.Check(header, verifies).None? && !selectError && !deleteError && id !in old(categories) ==>
                status == NotFound
      ensures status == Ok <==> Auth.Check(header, verifies).None? && !selectError && !deleteError && id in old(categories)
      ensures files == if Auth.Check(header, verifies).None? && !selectError
                       then old(files) - CategoryFiles(uploadsDir, old(images), ImagesOfCategory(old(images), id))
                       else old(files)
      ensures status == Ok ==> categories == old(categories) - {id} && CacheCleared()
      ensures status != Ok ==> categories == old(categories) && unchanged(cache)
    {
      var refusal := Auth.Check(header, verifies);
      if refusal.Some? {
        return refusal.value;
      }
      if selectError {
        return ServerError;
      }
      RemoveCategoryFiles(ImagesOfCategory(images, id));
      if deleteError {
        return ServerError;
      }
      if id !in categories {
        return NotFound;
      }
      categories := categories - {id};
      cache.Clear();
      return Ok;
    }

    /** The upload got past the gate and multer wrote its file to disk. */
    predicate Stored(header: Option<string>, verifies: string -> bool, file: Option<FilePart>)
    {
      Auth.Check(header, verifies).None? && file.Some? && !Rejected(file.value) && !TooLarge(file.value)
    }

    /** multer's verdict on a file part before storing it: wrong field, or a type the filter rejects. */
    predicate Rejected(f: FilePart)
    {
      f.fieldName != ImageField || !accepts(f.originalName)
    }

    /** A file part multer accepts but stops for exceeding the size limit. */
    predicate TooLarge(f: FilePart)
    {
      !Rejected(f) && f.size > maxFileSize
    }

    /**
     * multer's part of the upload: a rejected part fails with 500, one over
     * the size limit with 400, otherwise the file is written to its folder.
     */
    method ReceiveFile(f: FilePart, categoryId: Option<int>, categoryFirst: bool, storedName: string)
      returns (status: int, path: string)
      modifies this
      ensures path == UploadPath(categoryId, categoryFirst, storedName)
      ensures Rejected(f) ==> status == ServerError
      ensures TooLarge(f) ==> status == BadRequest
      ensures status == Ok <==> !Rejected(f) && !TooLarge(f)
      ensures files == if status == Ok then old(files) + {path} else old(files)
      ensures categories == old(categories) && images == old(images)
      ensures lastCategoryId == old(lastCategoryId) && lastImageId == old(lastImageId)
    {
      path := UploadPath(categoryId, categoryFirst, storedName);
      if Rejected(f) {
        return ServerError, path;
      }
      if f.size > maxFileSize {
        return BadRequest, path;
      }
      files := files + {path};
      return Ok, path;
    }

    /**
     * POST /api/images. In order: the gate; multer (see `ReceiveFile`); 400
     * when there is neither a file nor a truthy image URL; 400 when the
     * category id is falsy, removing the stored file; the insert, which fails
     * without a file (the file-name columns are NOT NULL) or on a storage
     * error, removing the stored file, with 500; otherwise the row is stored
     * under the next id, the cache is cleared and the response carries the
     * URL the listing will show for the row.
     */
    method UploadImage(header: Option<string>, verifies: string -> bool, form: UploadForm,
                       file: Option<FilePart>, categoryFirst: bool, storedName: string, dbError: bool)
      returns (status: int, id: Option<int>, url: Option<string>)
      requires Valid()
      modifies this, cache
      ensures Valid()
      ensures categories == old(categories) && lastCategoryId == old(lastCategoryId)
      ensures Auth.Check(header, verifies).Some? ==> status == Auth.Check(header, verifies).value
      ensures Auth.Check(header, verifies).None? && file.Some? && Rejected(file.value) ==> status == ServerError
      ensures Auth.Check(header, verifies).None? && file.Some? && TooLarge(file.value) ==> status == BadRequest
      ensures Auth.Check(header, verifies).None? && file.None? ==>
                status == (if !Truthy(form.imageUrl) || form.categoryId.None? then BadRequest else ServerError)
      ensures Stored(header, verifies, file) && form.categoryId.None? ==> status == BadRequest
      ensures Stored(header, verifies, file) && form.categoryId.Some? && dbError ==> status == ServerError
      ensures status == Ok <==> Stored(header, verifies, file) && form.categoryId.Some? && !dbError
      ensures Stored(header, verifies, file) ==>
                var path := UploadPath(form.categoryId, categoryFirst, storedName);
                files == if status == Ok then old(files) + {path} else old(files) - {path}
      ensures !Stored(header, verifies, file) ==> files == old(files)
      ensures status == Ok ==>
                var f := file.value;
                && id == Some(old(lastImageId) + 1) && id.value !in old(images)
                && images == old(images)[id.value := ImageRecord(form.categoryId.value, storedName, f.originalName,
                                                              form.title, form.titleAr, form.videoUrl, f.size,
                                                              f.mimeType, OrNull(form.imageUrl))]
                && lastImageId == id.value
                && url == Some(if Truthy(form.imageUrl) then form.imageUrl.value else Aggregation.UploadsPrefix + storedName)
                && (storedName != "" ==> url == Aggregation.ImageUrl(OrNull(form.imageUrl), Some(storedName)))
                && CacheCleared()
      ensures status != Ok ==>
                id == None && url == None && images == old(images) && lastImageId == old(lastImageId)
                && unchanged(cache)
    {
      var refusal := Auth.Check(header, verifies);
      if refusal.Some? {
        return refusal.value, None, None;
      }
      var path := "";
      if file.Some? {
        var received;
        received, path := ReceiveFile(file.value, form.categoryId, categoryFirst, storedName);
        if received != Ok {
          return received, None, None;
        }
      }
      if file.None? && !Truthy(form.imageUrl) {
        return BadRequest, None, None;
      }
      if form.categoryId.None? {
        if file.Some? {
          files := files - {path};
        }
        return BadRequest, None, None;
      }
      if file.None? || dbError {
        if file.Some? {
          files := files - {path};
        }
        return ServerError, None, None;
      }
      var f := file.value;
      var newId := lastImageId + 1;
      images := images[newId := ImageRecord(form.categoryId.value, storedName, f.originalName, form.title, form.titleAr,
                                            form.videoUrl, f.size, f.mimeType, OrNull(form.imageUrl))];
      lastImageId := newId;
      cache.Clear();
      url := Some(if Truthy(form.imageUrl) then form.imageUrl.value else Aggregation.UploadsPrefix + storedName);
      return Ok, Some(newId), url;
    }

    /**
     * DELETE /api/images/:id: behind the gate; 500 when the lookup fails, 404
     * when there is no such row; otherwise the row's file is removed from the
     * uploads directory (when its name is non-empty), then the row is
     * deleted: 500 when that fails, with the file already gone.
     */
    method DeleteImage(header: Option<string>, verifies: string -> bool, id: int, selectError: bool, deleteError: bool)
      returns (status: int)
      requires Valid()
      modifies this, cache
      ensures Valid()
      ensures categories == old(categories)
      ensures lastCategoryId == old(lastCategoryId) && lastImageId == old(lastImageId)
      ensures Auth.Check(header, verifies).Some? ==> status == Auth.Check(header, verifies).value
      ensures Auth.Check(header, verifies).None? && selectError ==> status == ServerError
      ensures Auth.Check(header, verifies).None? && !selectError && id !in old(images) ==> status == NotFound
      ensures Auth.Check(header, verifies).None? && !selectError && id in old(images) && deleteError ==>
                status == ServerError
      ensures status == Ok <==> Auth.Check(header, verifies).None? && !selectError && id in old(images) && !deleteError
      ensures files == if Auth.Check(header, verifies).None? && !selectError && id in old(images)
                          && old(images)[id].filename != ""
                       then old(files) - {JoinPath(uploadsDir, old(images)[id].filename)}
                       else old(files)
      ensures status == Ok ==> images == old(images) - {id} && CacheCleared()
      ensures status != Ok ==> images == old(images) && unchanged(cache)
    {
      var refusal := Auth.Check(header, verifies);
      if refusal.Some? {
        return refusal.value;
      }
      if selectError {
        return ServerError;
      }
      if id !in images {
        return NotFound;
      }
      var name := images[id].filename;
      if name != "" {
        var path := JoinPath(uploadsDir, name);
        if path in files {
          files := files - {path};
        }
      }
      if deleteError {
        return ServerError;
      }
      images := images - {id};
      cache.Clear();
      return Ok;
    }
  }
}
