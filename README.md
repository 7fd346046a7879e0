# Category gallery backend: verified model

This project models the Node/Express backend in `backend/server.js`. The
backend serves a bilingual catalogue of categories, each with images, to a
public site and to an admin dashboard. The parts modelled are:

- **the listing cache**: the single-slot, ten-minute cache in front of
  `GET /api/categories`, with the clock as a parameter (`Cache`);
- **the category listing**: the four-query read that turns category,
  image, property and property-image rows into one view per category
  (`Aggregation`). Its dictionary-filling loops (`Grouping.GroupInto`,
  `Aggregation.AppendPropertyEntries`) are proved equal to the reference
  functions `CategoriesResult`, `CategoryImages` and `Views`;
- **the admin mutations**: the routes that create, update and delete
  categories and upload and delete images (`Server.Server`). The class
  holds:
  - the two tables as maps, with their AUTOINCREMENT counters;
  - the set of file paths on disk;
  - the cache.

  Every route passes the bearer-token gate (`Auth`), returns the status the
  code returns, clears the cache exactly on success and leaves it untouched
  otherwise;
- **the contact listing**: `GET /api/contact`, grouping contact rows by type
  in input order (`Contacts`);
- **the upload filter**: `fileFilter`, with Node's POSIX `path.extname`
  written out (`UploadFilter`).

`Values` holds the JavaScript side: optional fields, truthiness, query
outcomes and status codes. `Strings` holds `split`, `join`, ASCII
`toLowerCase` and the decimal rendering of ids.

Storage calls become inputs. A query is `Rows(rows)` or `QueryError`, and
a failing `run` is a boolean flag. The JWT check is a function parameter.
The clock is an integer parameter. The name multer gives a stored file is
an input.

Facts about the listing and the routes that the model keeps as the code
has them:

- a category's direct images are always loaded, and always come first in
  its `images` list;
- a property with no images adds no entry;
- properties come in the order the query returns them, because the
  query has no ORDER BY;
- the server has no routes that create, change or delete properties or
  property images.

Behaviours of the code as written that the model makes visible:

- **No cascade.** Foreign-key enforcement is never switched on, so deleting
  a category leaves its image rows in place (`Server.Server.DeleteCategory`
  ensures `images == old(images)`).
- **Files go before the 404.** Deleting a category removes the files of
  its image rows before the server learns whether the category existed.
  Deleting the same id again selects the orphaned image rows once more,
  removes nothing because their files are already gone, and answers 404.
- **URL-only uploads fail.** `images.filename` and `original_name` are
  NOT NULL, so an upload with an image URL but no file passes the 400
  checks and then fails at the insert with 500.
- **Category-folder files are never deleted.** When the `category_id`
  field precedes the file part, multer stores the file under
  `category_<id>/`. Both delete routes look for it directly under the
  uploads directory and do not find it
  (`Server.CategoryFolderFileMissedOnDelete`).
- **A stamp of 0 never hits.** A cache stamp of 0 is falsy, so such a
  snapshot always reads as a miss.

## Model

| member | source | states |
|---|---|---|
| Values.OrNull | backend/server.js:678 | `x \|\| null` is the field itself or null, never an empty string, and a non-empty string is kept |
| Strings.Split | backend/server.js:208-210 | `split` gives at least one part, and no part contains the separator |
| Strings.SplitJoin | backend/server.js:208-210 | splitting and rejoining at the same separator gives the original string back |
| Strings.JoinSplit | backend/server.js:208-210 | joining separator-free parts and splitting again gives the parts back |
| Strings.Join | backend/server.js:208-210 | `join` of one part is that part, and of several starts with the first part and the separator; with `Split` it round-trips (`SplitJoin`, `JoinSplit`) |
| Strings.SplitWithoutSeparator | backend/server.js:231 | a string without the separator splits into itself alone |
| Strings.SplitFirst | backend/server.js:231 | splitting `a + sep + b`, with `a` separator-free, gives `a` followed by the parts of `b` |
| Strings.LowerChar | backend/server.js:211 | ASCII `toLowerCase` maps each of `A`–`Z` to the same letter among `a`–`z` and leaves every other character alone |
| Strings.Lower | backend/server.js:211 | lower-casing keeps the length and lowers each character |
| Strings.LowerLeavesNoUpper | backend/server.js:211 | no upper-case letter is left, and non-upper-case characters are unchanged |
| Strings.Digit | backend/server.js:505 | the digit for `d < 10` is the character among `0`–`9` whose value is `d` |
| Strings.NatDecimal | backend/server.js:505 | the rendering of a natural number is a run of digits, most significant first, that denotes the number (`DigitsValue`) and has no leading zero (0 renders as the single digit `0`) |
| Strings.Decimal | backend/server.js:189 | `${n}` starts with a minus sign iff `n` is negative; after it come only digits, without a leading zero, that denote the magnitude of `n` |
| Strings.NatDecimalInjective | backend/server.js:505 | different natural numbers render differently |
| Strings.DecimalInjective | backend/server.js:505 | different integers, negative ones included, render differently |
| Strings.PrefixInjective | backend/server.js:505 | a shared prefix does not make two different renderings equal |
| Grouping.Push | backend/server.js:473-476 | `if (!d[k]) d[k] = []; d[k].push(v)` appends `v` under `k`, creates the key when missing, and leaves every other list alone |
| Grouping.GroupInto | backend/server.js:778-787 | after the loop, every key's list is its old list plus the mapped rows with that key, in input order; a key exists iff it existed or some row has it |
| Grouping.GroupStep | backend/server.js:778-787 | one pass of the grouping loop keeps both loop invariants |
| Grouping.SelectStep | backend/server.js:778-787 | taking one more row adds its entry to its own key's list only |
| Grouping.SelectLength | backend/server.js:778-787 | a key's list has one entry per row with that key |
| Grouping.SelectPrefix | backend/server.js:778-787 | rows added later only add entries at the end of a list |
| Grouping.CountMonotone | backend/server.js:778-787 | a longer prefix never holds fewer rows with a key |
| Grouping.SelectRank | backend/server.js:778-787 | row `j` lands in its own key's list, at the position given by the number of earlier rows with that key |
| Grouping.SelectOrigin | backend/server.js:778-787 | every entry of a key's list comes from a row with that key that owns that position |
| Grouping.SelectKeepsOrder | backend/server.js:778-787 | entries at positions `a < b` of a list come from rows `ja < jb` with that key |
| Grouping.SelectEmpty | backend/server.js:778-787 | a key's list is empty iff no row has the key |
| Grouping.RankIncreases | backend/server.js:778-787 | of two rows with the same key, the earlier one lands at an earlier position |
| Aggregation.ImageUrl | backend/server.js:424 | the image URL is the explicit URL when non-empty, else `/uploads/` plus a non-empty file name, else null; it is never the empty string |
| Aggregation.DirectEntry | backend/server.js:417-427 | a direct image entry keeps the row's id, title, Arabic title, file name, original name, video and creation time, repeats the title as the English title, and carries the URL `ImageUrl` picks (the explicit URL first, then the upload path), which is non-empty and present whenever the row has a stored file |
| Aggregation.PropertyEntry | backend/server.js:504-514 | builds the entry for one image of a property; what the entry carries is stated by `PropertyEntryFields`, and that ids are distinct by `PropertyEntryIdsDistinct` |
| Aggregation.PropertyEntryFields | backend/server.js:504-514 | a property entry's id is `prop_` followed by the image id, its URL is the image's, its file name is null, and its titles, video and location are the property's |
| Aggregation.PushPropertyImages | backend/server.js:499-515 | one property's images are appended, as property entries and in order, to its category's list; no other list changes |
| Aggregation.PushStep | backend/server.js:500-515 | one pass of the inner loop keeps its invariants |
| Aggregation.AppendStep | backend/server.js:498-516 | one pass of the loop over properties keeps its invariant for every category |
| Aggregation.AppendStepAt | backend/server.js:498-516 | the same, for the list of a single category |
| Aggregation.PropertyEntriesStep | backend/server.js:500-515 | one more property image adds exactly its entry at the end |
| Aggregation.AppendPropertyEntries | backend/server.js:498-516 | after the loop over properties, each category's list is its old list followed by the entries of its properties, property by property in input order |
| Aggregation.AppendProperty | backend/server.js:499-515 | one pass of the loop over properties appends exactly that property's entries to its category's list, in the reference order `PropertyImagesOf` |
| Aggregation.Compute | backend/server.js:351-533 | the handler's computation equals `CategoriesResult`: a failing query that is reached yields no listing; no category yields `[]`; otherwise the listing is `Views` |
| Aggregation.BuildViews | backend/server.js:518-529 | one view per category, in order, each carrying the category's id, its name as the English name, and the list gathered under its id (`[]` when there is none) |
| Aggregation.BuildViewsMatches | backend/server.js:518-529 | the final `map` over the filled dictionary gives the reference views |
| Aggregation.PropertyImagesOfAppend | backend/server.js:498-516 | the entries from two property lists in sequence are the first list's entries followed by the second's |
| Aggregation.PropertyImagesOfSnoc | backend/server.js:498-516 | one more property at the end adds its entries at the end |
| Aggregation.PropertyImagesOfStep | backend/server.js:498-516 | taking one more property adds its entries, and only to its own category |
| Aggregation.ImagelessPropertyAddsNothing | backend/server.js:499-500 | a property without images adds no entry: removing it leaves every category's list unchanged |
| Aggregation.PropertyEntryProvenance | backend/server.js:498-516 | every property entry of a category is the entry of an image row of a property of that same category |
| Aggregation.CategoryEntryProvenance | backend/server.js:479-516 | a category's list holds its own direct images first, then entries of its own properties' images; nothing from another category |
| Aggregation.DirectImageLands | backend/server.js:481-496 | each direct image row appears in its own category's list, exactly once, in input order |
| Aggregation.PropertyImagesOfEmpty | backend/server.js:498-516 | a category has no property entries iff none of its properties has an image |
| Aggregation.CategoryImagesEmpty | backend/server.js:528 | `images` is `[]` iff the category has no direct image and no image on any of its properties |
| Aggregation.PropertyImagesInSortOrder | backend/server.js:460-477 | with rows in the query's order, a property's images are taken in ascending `sort_order` |
| Aggregation.PropertyEntryIdsDistinct | backend/server.js:505 | two property entries share an id only if they come from the same image row |
| Aggregation.ViewsShape | backend/server.js:518-529 | there is one view per category, in category order, carrying its id, name, Arabic name, description, Arabic description and both timestamps; `name_en = name` and `description_en = description`; `images` holds the direct images, then the property entries, and is empty exactly when the category has neither |
| Contacts.GetContact | backend/server.js:771-790 | a failed query gives 500; otherwise there is a key for exactly the types present, each holding its rows' entries in input order |
| Contacts.ContactRowListed | backend/server.js:778-787 | every row is listed under its own type, at its rank among the rows of that type |
| Contacts.ContactOrderKept | backend/server.js:778-787 | rows of one type keep their order, and no two rows share a slot |
| Contacts.ContactEntryFromRow | backend/server.js:778-787 | every listed entry belongs to a row of that type that owns the slot |
| Contacts.ContactGroupSize | backend/server.js:778-787 | a type's list has exactly one entry per row of that type |
| UploadFilter.TrimTrailingSlashes | backend/server.js:211 | the result is a prefix without a trailing slash, and only slashes were removed |
| UploadFilter.LastIndexOf | backend/server.js:211 | the result is the index of the last occurrence, or -1 when there is none |
| UploadFilter.BaseName | backend/server.js:211 | the last segment is the part of the path, trailing slashes removed, after its last slash (all of it when there is none), and has no slash |
| UploadFilter.SegmentExt | backend/server.js:211 | the extension of one segment is empty, or a dot followed by no further dot, and has no slash when the segment has none |
| UploadFilter.SegmentExtEndsSegment | backend/server.js:211 | the extension ends the segment, and a segment without a dot, or `..`, has none |
| UploadFilter.ExtName | backend/server.js:211 | the extension is that of the last path segment (`SegmentExt`): empty, or a dot followed by no further dot or slash |
| UploadFilter.ExtensionOf | backend/server.js:211 | the compared extension is empty when the name has none, and otherwise the lower-cased extension without its dot |
| UploadFilter.Accepts | backend/server.js:207-218 | the filter's verdict, stated for plain names by `AcceptsPlainName` and `DefaultAcceptsPlainName` and for names without extension by `NoExtensionNeedsEmptyEntry` |
| UploadFilter.BaseNameOfSegment | backend/server.js:211 | a name without a slash is its own last segment |
| UploadFilter.ExtNameOfSegment | backend/server.js:211 | in a segment other than `..`, a non-leading last dot starts the extension |
| UploadFilter.ExtNameOfPlainName | backend/server.js:211 | `stem.ext` has the extension `.ext` |
| UploadFilter.DotfileHasNoExtension | backend/server.js:211 | a name whose only dot is its first character has no extension |
| UploadFilter.AcceptsPlainName | backend/server.js:207-218 | `stem.ext` is accepted iff the lower-cased `ext` is in the allow-list |
| UploadFilter.DefaultAllowedTypesList | backend/server.js:208-210 | without configuration, the allow-list is exactly jpg, jpeg, png, gif, webp, mp4, mov and avi |
| UploadFilter.AllowedTypes | backend/server.js:208-210 | the allow-list is the configured setting when truthy, else the default, cut at commas: comma-free entries that joined with commas give the setting back |
| UploadFilter.DefaultAcceptsPlainName | backend/server.js:207-218 | without configuration, `stem.ext` is accepted iff the lower-cased `ext` is one of the eight default types |
| UploadFilter.DefaultRejectsDotFreeName | backend/server.js:208-217 | without configuration, a file name without a dot (`photo`) is refused |
| UploadFilter.NoExtensionNeedsEmptyEntry | backend/server.js:211-213 | a name without an extension is accepted only when the allow-list has an empty entry |
| Auth.BearerToken | backend/server.js:230-231 | a token comes only from a non-empty header and never contains a space |
| Auth.Check | backend/server.js:229-244 | the gate answers 401 iff there is no non-empty token, 403 when the token does not verify, and passes exactly a non-empty token that verifies |
| Auth.TokenOfTwoWords | backend/server.js:231 | the header `scheme token` yields `token` |
| Auth.TokenIgnoresLaterWords | backend/server.js:231 | words after the token are ignored |
| Auth.WellFormedHeader | backend/server.js:229-244 | a well-formed header passes iff its token verifies, and gets 403 otherwise |
| Auth.OneWordHeaderRefused | backend/server.js:231-235 | a header without a space gets 401 |
| Auth.MissingHeaderRefused | backend/server.js:230-235 | a missing or empty header gets 401 |
| Cache.Read | backend/server.js:81-86 | a read hits, returning the stored list, iff both variables are set, the stamp is non-zero and less than ten minutes have passed |
| Cache.CategoriesCache.constructor | backend/server.js:71-73 | the cache starts empty, and every read misses |
| Cache.CategoriesCache.Clear | backend/server.js:75-79 | both variables become null, and every read misses, whatever the earlier state, so clearing twice is clearing once |
| Cache.CategoriesCache.Set | backend/server.js:88-91 | a later read returns exactly the stored list, even `[]`, while less than ten minutes have passed, and misses from ten minutes on |
| Server.MaxFileSize | backend/server.js:223 | the limit is never 0: a non-zero configured number is used as it is, and any other limit is the 10 MiB default |
| Server.JoinPath | backend/server.js:189 | the joined path is the directory, one slash and the name |
| Server.JoinPathInjective | backend/server.js:189 | in one directory, different names give different paths |
| Server.UploadFolder | backend/server.js:185-198 | the folder lies under the uploads directory, and is the uploads directory itself iff no truthy `category_id` preceded the file part |
| Server.UploadFolderPerCategory | backend/server.js:188-195 | uploads for different categories go to different folders |
| Server.CategoryFolderFileMissedOnDelete | backend/server.js:188-195 | a file stored in a category folder is not at the path the delete routes remove |
| Server.RootFileFoundOnDelete | backend/server.js:196-198 | a file stored without a preceding category id is exactly at the path the delete routes remove |
| Server.CategoryFilesAdd | backend/server.js:622-629 | one more image row adds at most its own path to the set the category delete removes |
| Server.ImagesOfCategory | backend/server.js:613-616 | the selected rows are exactly the image rows of the category |
| Server.Server.constructor | backend/server.js:220-226 | the server starts with empty tables and an empty cache; multer's filter is `fileFilter` with the configured allow-list, and its size limit is the configured one |
| Server.Server.ClearCacheRoute | backend/server.js:320-326 | behind the gate, the route clears the cache; a refused request leaves it alone |
| Server.Server.GetCategories | backend/server.js:329-538 | a cached listing is served iff it is fresh at `now` and `t` is falsy; otherwise the result of `CategoriesResult` is served and stored stamped with `storedAt`, the clock reading taken when the queries are done; a failing query answers 500 and leaves the cache unchanged |
| Server.Server.CreateCategory | backend/server.js:541-568 | 401/403 from the gate; 400 without a name; 500 on a storage error; otherwise the row is inserted under a fresh id and the cache is cleared; the cache is untouched on failure |
| Server.Server.UpdateCategory | backend/server.js:571-607 | 401/403, 400 without a name, 500, 404 for a missing row; otherwise the row's four fields are replaced and the cache is cleared |
| Server.Server.RemoveCategoryFiles | backend/server.js:622-629 | the loop removes exactly the existing paths of the selected rows with a non-empty file name |
| Server.Server.DeleteCategory | backend/server.js:610-651 | behind the gate and after a successful select, files are removed before the 500/404 outcome is known; only the category row is deleted; the cache is cleared exactly on 200 |
| Server.Server.ReceiveFile | backend/server.js:207-226 | a file under another field name or of a rejected type gives 500, one over the size limit gives 400; otherwise it is written to its folder |
| Server.Server.UploadImage | backend/server.js:654-723 | statuses in the code's order; a stored file is removed on the missing-category and insert-failure paths; on 200 the row is stored under a fresh id, the cache is cleared, and the returned URL is the one the listing will show |
| Server.Server.DeleteImage | backend/server.js:726-761 | 500 on a failed lookup, 404 for a missing row; the row's file is removed when the row has a non-empty name, even if the delete then fails; the cache is cleared exactly on 200 |

## Left out

- Express wiring is not modelled: helmet, CORS, the rate limiter, static
  serving of `/uploads` and `/uplods`, the 404 handler and shutdown. They
  are plumbing.
- Login, `initializeAdmin`, bcrypt and JWT signing are not modelled.
  They are foreign cryptographic libraries. Token verification is the
  `verifies` parameter of `Auth.Check`.
- Multer's file naming (clock plus random suffix) is not modelled: the
  stored name is an input. `mkdirSync` for the category folder is not
  modelled either.
- Server.Server.ReceiveFile: leaves the file set unchanged when the size
  limit trips. Multer's removal of the partly written file is not
  modelled.
- The error middleware is modelled only through the statuses it produces
  for multer errors: 400 for a file that is too large, 500 for everything
  else.
- Server.JoinPath: does not normalise `.` or `..` segments or doubled
  slashes the way `path.join` does. File names are treated as plain
  segments.
- Strings.Lower: covers ASCII letters only, not full Unicode case
  mapping.
- Ids and `category_id` are integers. SQLite's type affinity for
  non-numeric text ids is not modelled. An absent or empty `category_id`
  is `None`.
- The `created_at` and `updated_at` timestamps are opaque strings taken
  from the rows. Setting them on insert and update is not modelled, and
  neither is `ORDER BY created_at` of the queries: rows arrive as input
  sequences, already in query order.
- Server.Server.GetCategories: takes the four query outcomes as inputs.
  It does not read them from the class's `categories` and `images` maps,
  whose rows carry no timestamps. The properties and property-images
  tables have no routes in this code.
- The contact grouping uses a map, not a JavaScript object. Keys such as
  `__proto__` and the object's key order are not modelled.
- Server.Server.DeleteCategory: the rows come back from the select in an
  unspecified order. The model removes their files in an arbitrary order,
  which does not change the resulting file set.
- Requests are modelled one at a time. Interleavings of concurrent
  requests between the asynchronous storage callbacks are not modelled.
- `backend/scripts/init-db.js` (schema creation and seeding) and the admin
  dashboard are not part of this model.
- UploadFilter.DefaultAllowedTypes: the default setting is written as the
  comma-join of the eight types rather than as a string literal. It is the
  same string.
