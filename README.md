# QuickCloset Picker, modelled in Dafny

QuickCloset Picker is a small wardrobe app with four parts:

- an Express/SQLite server that keeps two tables, `wardrobe_items` and `saved_outfits`;
- an upload page that sends new items;
- a gallery page that filters and edits items;
- an outfit builder that combines one item per category into a saved outfit, which a saved-outfits page shows again.

This project models the logic under the DOM and HTTP plumbing and proves what it promises.

- **Server** (`server.dfy`). The two tables are a `Store` class over two maps. There is one method per route handler. The uuid and `Date.now()` are parameters. The server validates nothing except `title NOT NULL` (server/init_db.js:20). A uuid that collides with a stored id fails on the primary key. Tags are stored as the JSON text of the array (`tag_json.dfy`) and decoded by `parseTags`, with `[]` for text that does not parse.
- **Outfit builder** (`outfit_builder.dfy`). The catalogue is split into four category buckets. The four-slot selection is changed by `selectItem`, `removeSelectedItem`, `clearSelection` and `randomizeOutfit`. `Math.random()` is replaced by one index per bucket, chosen by the caller. The page also has the save check and builds the save request.
- **Saved outfits** (`saved_outfits.dfy`). Slot ids are joined against the item list. A missing item becomes a placeholder, never an error. The page also has the notes rule, the count line and the outfit being viewed.
- **Gallery** (`gallery.dfy`). It has the category filter, the search over titles and tags, the count line and the edit form. Submitting the edit form keeps the item's image. The comma-separated tag box is modelled in `tag_input.dfy`.
- **API service** (`api.dfy`). It covers the base URL, the reads with their fallbacks when a request fails, the statistics, and the category names and icons.
- **Upload page** (`upload.dfy`). It covers the image checks, the image data the page holds, and the submitted item.
- **Flows** (`flows.dfy`). Several pages and the server work together in these scenarios:
  - an outfit saved from a selection shows that selection again;
  - an uploaded item opened in the edit form and submitted unchanged asks for the same item;
  - deleting an item leaves a placeholder in a saved outfit;
  - the server accepts any category and an outfit with no slot.

`text.dfy` holds `trim`, the ASCII lower-casing, `includes`, `split`/`join` and number rendering. `seqs.dfy` holds `filter`, and `records.dfy` holds the shared records and `find`. `wrappers.dfy` holds `Option` and `Result`.

What the server does not do, as server/server.js is written:

- It checks no category and accepts an outfit with all four slots null (`Flows.HatsAccepted`, `Flows.EmptyOutfitAccepted`). Only the builder page refuses an empty selection.
- `GET /tables/wardrobe_items` and `GET /tables/saved_outfits` take no paging parameters (server/server.js:29-35, 94-99). They return every row with `page = 1` and `limit` equal to the number of rows.
- Both DELETE routes always answer `{success: true}`, whether or not a row was removed (server/server.js:86-91, 126-131).

## Model

| member | source | states |
|---|---|---|
| Server.DecodeTagsColumn | server/server.js:21-23 | a NULL or empty tags column and text that does not parse give `[]`; otherwise the parsed array |
| Server.StoredTags | server/server.js:51 | the column text for the body's tags, or for `[]` when they are not an array; `Server.StoredTagsReadBack` reads it back as exactly that array |
| Server.StoredTagsReadBack | server/server.js:51 | tags stored by POST/PUT read back as the array sent, or `[]` when the body's tags were not an array |
| TagJson.EncodeTags | server/server.js:51 | `JSON.stringify` of an array of strings: the text is bracketed, and `TagJson.TagsRoundTrip` decodes it back to the array |
| TagJson.DecodeTags | server/server.js:21 | `JSON.parse` of the column: only text opening with `[` decodes; the text `JSON.stringify` writes decodes to its array (`TagJson.TagsRoundTrip`) |
| TagJson.TagsRoundTrip | server/server.js:51 | decoding the `JSON.stringify` text of any array of strings gives that array back |
| TagJson.EscapeCharDecodes | server/server.js:21-23 | a character's JSON escape decodes to that character, ahead of whatever the rest decodes to |
| TagJson.DecodeBodyRoundTrip | server/server.js:21-23 | an escaped string followed by its closing quote decodes to that string and leaves what follows |
| TagJson.ElementsRoundTrip | server/server.js:21-23 | the comma-joined encoded strings followed by `]` decode to the strings |
| Server.ParseTags | server/server.js:18-26 | an absent row stays absent; otherwise only `tags` changes, to the decoded column, and every other field is kept |
| Server.InsertNewest | server/server.js:30 | inserting a row id keeps the list newest first and adds exactly that id |
| Server.InsertNewestDistinct | server/server.js:30 | inserting an id that is not yet listed into a list without repeats keeps it without repeats |
| Server.OrderNewestFirst | server/server.js:30 | `ORDER BY created_at DESC`: every row exactly once, created times non-increasing |
| Server.ItemListing | server/server.js:29-35 | rows taken in a newest-first order of all stored ids hold every item exactly once, decoded, with non-increasing created times |
| Server.Store.ListItems | server/server.js:29-35 | every item exactly once, decoded, newest first; `total` and `limit` are the row count, `page` is 1 |
| Server.Store.GetItem | server/server.js:38-44 | a stored id gives 200 and the decoded row; an unknown id gives 404 "Not found" |
| Server.Store.CreateItem | server/server.js:47-63 | a null title gives the NOT NULL error 500 and a taken id the UNIQUE error 500, each with nothing stored; otherwise the row is stored with both timestamps `now` and 201 returns the tags sent |
| Server.Store.UpdateItem | server/server.js:66-83 | an unknown id gives 404 with nothing changed; a null title gives 500; otherwise exactly title, category, image, tags and `updated_at` are replaced, and `id` and `created_at` are kept |
| Server.Store.DeleteItem | server/server.js:86-91 | only that row is removed; success even for an unknown id; every outfit is unchanged (no cascade) |
| Server.Store.ListOutfits | server/server.js:94-99 | every outfit exactly once, newest first; `total` and `limit` are the row count, `page` is 1 |
| Server.OutfitListing | server/server.js:94-99 | outfits taken in a newest-first order of all stored ids hold every outfit exactly once, as stored, with non-increasing created times |
| Server.Store.GetOutfit | server/server.js:101-107 | a stored id gives 200 and the row; an unknown id gives 404 |
| Server.Store.CreateOutfit | server/server.js:109-124 | name, four slots and notes are stored verbatim, with no check, under the new id with both timestamps `now`; a taken id gives 500 |
| Server.Store.DeleteOutfit | server/server.js:126-131 | only that outfit is removed; success even for an unknown id; items unchanged |
| Flows.HatsAccepted | server/server.js:47-63 | an item in category `hats` is stored and returned with 201 |
| Flows.EmptyOutfitAccepted | server/server.js:109-124 | an outfit with all four slots null is stored and returned with 201 |
| Flows.CreateThenGet | server/server.js:38-63 | an item created under a fresh id is read back with the title, category, image and tags sent, and both timestamps `now` |
| Records.ByCategory | js/gallery.js:132 | the result holds exactly the items of that category (a null category matches none) and is no longer than the list |
| Records.CategoriesPartition | js/api.js:168-171 | the four category filters and the items of any other category count every item exactly once |
| Records.FindById | js/saved-outfits.js:100 | the first item with that id, or none exactly when no item has it |
| Records.FindFirst | js/gallery.js:277 | the first item with an id is the one a lookup of that id finds |
| Records.Resolve | js/saved-outfits.js:100-103 | a null slot finds nothing; a found item has the slot's id and is the first item with it; nothing found means no item has that id |
| Seqs.Filter | js/gallery.js:132 | the result holds exactly the elements that pass, and is no longer than the input |
| Seqs.FilterIsSubsequence | js/gallery.js:163 | a filter keeps the order of its input |
| Seqs.FilterConjunction | js/gallery.js:163-172 | filtering by a conjunction equals filtering by one part and then the other |
| Seqs.FilterIdempotent | js/api.js:28-31 | filtering twice by the same condition equals filtering once (the step behind `Api.GetAllItemsIdempotent`) |
| OutfitBuilder.Selection.Set | js/outfit-builder.js:142 | `selectedItems[k] = v` sets slot `k` and keeps the other three |
| OutfitBuilder.SlotOf | js/outfit-builder.js:133-135 | `shirts`, `pants` and `accessories` map to their own slot; every other category maps to `shoes` |
| OutfitBuilder.CategoryOf | js/outfit-builder.js:237-244 | the category of a slot's bucket maps back to that slot |
| OutfitBuilder.Catalogue.Bucket | js/outfit-builder.js:138 | `allItems[category]` exists exactly for the four bucket keys |
| OutfitBuilder.Catalogue.Of | js/outfit-builder.js:3-8 | the bucket of a slot is the bucket its category names |
| OutfitBuilder.Partition | js/outfit-builder.js:81-84 | each bucket holds exactly the items of its category; the buckets together hold no more than the list |
| OutfitBuilder.PartitionKeepsOrder | js/outfit-builder.js:81-84 | each bucket keeps the order of the loaded list |
| OutfitBuilder.HasSelection | js/outfit-builder.js:344 | `Object.values(selectedItems).some(item => item !== null)`: some slot holds an item; `OutfitBuilder.HasSelectionIffNotEmpty` proves this is exactly a non-empty selection |
| OutfitBuilder.HasSelectionIffNotEmpty | js/outfit-builder.js:306 | some slot holds an item exactly when the selection is not all-null |
| OutfitBuilder.SlotId | js/outfit-builder.js:352-355 | a request slot is the selected item's id, or null exactly when the slot is empty |
| OutfitBuilder.BuildSaveRequest | js/outfit-builder.js:332-357 | a blank name is refused first, then an empty selection; otherwise the name is trimmed and non-empty, the notes are trimmed, and each request slot is that slot's item id or null |
| OutfitBuilder.SaveBody | js/outfit-builder.js:350-357 | the request carries the name and notes given and, per slot, the selected item's id or null |
| OutfitBuilder.Builder.LoadAllItems | js/outfit-builder.js:75-84 | the buckets become the partition of the loaded list; the selection is kept |
| OutfitBuilder.Builder.SelectItem | js/outfit-builder.js:132-148 | a category with no bucket throws and changes nothing; an id missing from the bucket changes nothing; otherwise the category's slot holds the bucket's first item with that id and the other slots are kept |
| OutfitBuilder.Builder.RemoveSelectedItem | js/outfit-builder.js:204-205 | slot `k` becomes null and nothing else changes |
| OutfitBuilder.Builder.ClearSelection | js/outfit-builder.js:257-268 | all four slots become null whatever they held, so clearing twice is clearing once; the buckets are kept |
| OutfitBuilder.Builder.PickFrom | js/outfit-builder.js:278-281 | a non-empty bucket puts an item with the picked item's id into its slot; an empty bucket changes nothing |
| OutfitBuilder.Builder.RandomizeOutfit | js/outfit-builder.js:273-296 | a slot holds an item exactly when its bucket is non-empty, and that item is in the bucket with the picked item's id |
| OutfitBuilder.Builder.SaveDisabled | js/outfit-builder.js:301-307 | the save button is disabled exactly when all four slots are null |
| SavedOutfits.SlotItems | js/saved-outfits.js:100-103 | four lookups in slot order; each finds the first item with its slot's id, or nothing exactly when the slot is null or no item has that id; a found item is in the list |
| SavedOutfits.Present | js/saved-outfits.js:106 | `filter(item => item)` keeps exactly the found items |
| SavedOutfits.PreviewItems | js/saved-outfits.js:98-106 | at most four preview items, each an item of the list |
| SavedOutfits.DetailEntries | js/saved-outfits.js:170-205 | always four tiles with the four slot labels; a tile shows an item exactly when its lookup found one, otherwise the slot icon and "Not selected" |
| SavedOutfits.PreviewMatchesDetails | js/saved-outfits.js:100-106 | the card preview is exactly the detail tiles that show an item, in slot order |
| SavedOutfits.NotesShown | js/saved-outfits.js:212-217 | notes are shown exactly when they hold a character that is not whitespace |
| SavedOutfits.OutfitCountLabel | js/saved-outfits.js:82 | exactly the count, " saved outfit", and one final `s` when the count is not 1 |
| SavedOutfits.FindOutfit | js/saved-outfits.js:158 | the first outfit of the list with that id, or none exactly when no outfit has it |
| SavedOutfits.OutfitsPage.LoadData | js/saved-outfits.js:45-62 | the page holds the two loaded lists; the outfit being viewed is kept |
| SavedOutfits.OutfitsPage.OpenViewModal | js/saved-outfits.js:157-218 | an unknown id changes nothing and opens nothing; otherwise that id is being viewed, and the name, four tiles and notes rule of the first outfit with it are shown |
| SavedOutfits.OutfitsPage.CloseViewModal | js/saved-outfits.js:227-233 | no outfit is being viewed; the lists are kept |
| SavedOutfits.OutfitsPage.DeleteTarget | js/saved-outfits.js:235-243 | a delete is sent exactly when an outfit with a non-empty id is being viewed and the user confirms, and it targets that outfit |
| Gallery.SomeTagContains | js/gallery.js:167-169 | true exactly when some lower-cased tag contains the query |
| Gallery.Matches | js/gallery.js:166-171 | the lower-cased title or some lower-cased tag contains the lower-cased query; `Gallery.Search` keeps exactly the category items that match |
| Gallery.Search | js/gallery.js:152-172 | a blank query gives the plain category list; otherwise exactly the list items of the category whose lower-cased title or a tag contains the lower-cased query, untrimmed |
| Gallery.SearchFiltersCategory | js/gallery.js:163-172 | a non-blank search is the category list filtered by the query |
| Gallery.SearchWithinCategory | js/gallery.js:157-172 | search results are always a subsequence of the category list |
| Gallery.ItemCountLabel | js/gallery.js:136 | exactly the count, " item", and one final `s` when the count is not 1 |
| Gallery.FormFor | js/gallery.js:243-246 | the form holds the item's id, title and category (empty when null); parsing its tag text gives back well-formed tags |
| Gallery.EditRequest | js/gallery.js:259-288 | a blank title or empty category is refused first, then an edited id not in the list; otherwise the update goes to that id with the trimmed title, category, parsed tags and that item's image |
| Gallery.UnchangedEditKeepsItem | js/gallery.js:236-288 | submitting the edit form as it was filled in asks for the item as it is |
| Gallery.GalleryPage.constructor | js/gallery.js:11-17 | a non-empty `category` URL parameter chooses the tab; otherwise `shirts` |
| Gallery.GalleryPage.Heading | js/gallery.js:96-103 | an icon other than `fa-question` exactly for the four categories, and exactly then a name other than the category; for every tab not named after an `Object.prototype` member, the icon and name the lookup tables as written give |
| Gallery.GalleryPage.SelectTab | js/gallery.js:36-41 | the clicked tab's category becomes current; nothing else changes |
| Gallery.GalleryPage.LoadItems | js/gallery.js:105-117 | the page holds the loaded list; tab and edited item are kept |
| Gallery.GalleryPage.Visible | js/gallery.js:126-176 | the grid shows the search result, all of the current category, with the matching count line |
| Gallery.GalleryPage.OpenEditModal | js/gallery.js:236-246 | an unknown id changes nothing; otherwise that id is being edited and the form is that item's |
| Gallery.GalleryPage.CloseEditModal | js/gallery.js:253-257 | no item is being edited; list and tab are kept |
| Gallery.GalleryPage.SubmitEdit | js/gallery.js:259-288 | the update sent is the edit request for the item being edited |
| TagInput.ParseTagInput | js/gallery.js:271-274 | every parsed tag is non-empty, trimmed and has no comma |
| TagInput.FormTextRoundTrip | js/gallery.js:246-274 | tags that are non-empty, trimmed and comma-free come back unchanged from the `", "`-joined text |
| TagInput.FormText | js/gallery.js:246 | `tags.join(', ')`; `TagInput.FormTextRoundTrip` parses it back to the tags and `TagInput.FormTextTrimmed` shows it has no blank at either end |
| TagInput.FormPieces | js/gallery.js:246 | the pieces of the form text between commas: the first tag, then each further tag after one blank |
| TagInput.FormTextPieces | js/gallery.js:246 | the `", "`-joined form text is those pieces joined by `,` |
| TagInput.FormPiecesTrim | js/gallery.js:271-274 | each piece of well-formed tags is comma-free and trims back to its tag |
| TagInput.FormTextTrimmed | js/gallery.js:246 | the joined text of well-formed tags has no blank at either end |
| Text.Trim | js/gallery.js:262 | the result has no whitespace at either end, is no longer than the input, and is empty exactly when the input is blank |
| Text.TrimKeepsSlice | js/gallery.js:262 | what `trim` returns is a contiguous run of the input with only whitespace before and after it |
| Text.TrimWithin | js/gallery.js:272-273 | trimming only drops characters: every character of the result is in the input |
| Text.Lower | js/gallery.js:162 | `toLowerCase` on ASCII: same length, each character lower-cased on its own |
| Text.Contains | js/gallery.js:166 | `includes`: the text occurs at some position; `Gallery.SomeTagContains` and `Gallery.Search` are stated with it |
| Text.Join | js/gallery.js:246 | `join`: `Text.JoinSplit` and `Text.SplitJoin` show it undoes `split` and is undone by it for separator-free pieces |
| Text.TrimTrimmed | js/gallery.js:262 | trimming a trimmed text changes nothing |
| Text.Split | js/gallery.js:272 | at least one piece, none holding the separator |
| Text.JoinSplit | js/gallery.js:272 | joining the pieces of a split with the separator gives the text back |
| Text.SplitJoin | js/gallery.js:246-272 | splitting the join of separator-free pieces gives the pieces back |
| Text.NatToString | js/gallery.js:136 | a count renders as decimal digits without a leading zero |
| Text.ParseNatToString | js/gallery.js:136 | the count can be read back from its rendering |
| Text.CountLabel | js/gallery.js:136 | the count, a blank, the noun, and a final `s` whenever the count is not 1 |
| Api.BaseUrl | js/api.js:6-8 | always ends in `/`; an override ending in `/` is kept, any other gets `/` appended; no (or an empty) override gives the default |
| Api.BaseUrlIdempotent | js/api.js:6-8 | normalising a normalised base URL changes nothing |
| Api.GetAllItems | js/api.js:18-37 | a failed request gives an empty first page with the requested limit; no category gives the page unchanged; a category keeps exactly its items and sets `total` to their number |
| Api.GetAllItemsKeepsOrder | js/api.js:28-31 | the category narrowing keeps the server's order |
| Api.GetAllItemsIdempotent | js/api.js:28-31 | narrowing a narrowed page to the same category changes nothing |
| Api.GetAllOutfits | js/api.js:102-111 | the server's page, or an empty first page with the requested limit |
| Api.FetchOne | js/api.js:40-49 | `getItemById`/`getOutfitById`: the value of a 2xx reply, null for a failed request or any other status |
| Api.GetStats | js/api.js:157-184 | each count is the size of that category; their sum is at most `totalItems`, with equality exactly when every item is in one of the four |
| Api.CategoryNameAsWritten | js/api.js:235-243 | the four names, and any other non-inherited key unchanged |
| Api.CategoryIconAsWritten | js/api.js:246-254 | the four icons, and `fa-question` for any other non-inherited key |
| Api.InheritedCategoryLeaks | js/api.js:242-253 | as written, `constructor` is not shown as itself and `toString` gets no `fa-question` icon |
| Api.CategoryName | js/api.js:235-243 | the four fixed names; any other text unchanged |
| Api.CategoryIcon | js/api.js:246-254 | the four fixed icons; any other text `fa-question` |
| Api.KnownCategoryHasIcon | js/api.js:235-254 | a category has its own icon exactly when it has its own display name |
| Upload.CheckImage | js/upload.js:68-79 | an image passes exactly when it is at most 5 MiB and its type starts with `image/`; the size is checked first |
| Upload.SubmitRequest | js/upload.js:103-133 | no image data is refused before anything else, then a blank title or empty category; otherwise the item has the trimmed non-empty title, the category, the held image and well-formed parsed tags |
| Upload.UploadPage.HandleImageUpload | js/upload.js:68-93 | a rejected or unreadable file keeps the held image; otherwise the page holds what was read |
| Upload.UploadPage.ClearImagePreview | js/upload.js:95-101 | the page holds no image |
| Upload.UploadPage.HandleFormSubmit | js/upload.js:103-133 | the item sent is the submit request for the held image, whose `image_url` is that image |
| Flows.SavedSelectionResolves | js/saved-outfits.js:170-173 | an outfit saved from a selection of listed items resolves to exactly that selection again |
| Flows.SlotsResolve | js/saved-outfits.js:170-173 | slots holding the ids of a selection's listed items find exactly those items |
| Flows.SelectedResolves | js/saved-outfits.js:170-173 | a selected item that is first with its id is found again by its id; an empty slot finds nothing |
| Flows.UploadThenEditUnchanged | js/gallery.js:236-288 | an uploaded item opened in the edit form and submitted unchanged asks for exactly the body it was uploaded with |
| Flows.DeletedItemLeavesPlaceholder | server/server.js:86-91 | after deleting the shirt of a saved outfit, the outfit's view shows a placeholder for it, the pants as uploaded, and placeholders for the unchosen slots |
| Flows.OnlyPantsLeft | js/saved-outfits.js:170-205 | an outfit viewed against a list holding only its pants shows one item tile and three placeholders |
| Flows.UploadTwo | js/upload.js:68-153 | two uploads into an empty store leave exactly the shirt row and the pants row, under their ids, with their categories and the trimmed pants title |
| Flows.UploadOne | js/upload.js:68-153 | one upload stores the item under its id with the trimmed title and the category, and resets the form |
| Flows.ChooseTwo | js/outfit-builder.js:132-148 | a builder loaded with a list holding a shirt and pants with the given ids, after a click on each, holds items with those ids in the shirt and pants slots and nothing in the other two |
| Flows.SelectListed | js/outfit-builder.js:132-148 | a click on an item of slot `k`'s bucket puts an item with its id into slot `k`; the other slots and the buckets are kept |
| Flows.PickShirtAndPants | js/outfit-builder.js:75-148 | the builder, loaded from the store's item list, selects the stored shirt and pants by id and leaves the other two slots empty |
| Flows.ListedRow | server/server.js:29-35 | a stored item appears in the item list with its category |
| Flows.SaveShirtAndPants | js/outfit-builder.js:332-360 | two uploads and a save leave the two rows and one outfit whose shirt and pants slots hold their ids and whose other slots are null |
| Flows.SaveSelection | js/outfit-builder.js:332-360 | saving a non-empty selection under a non-blank name stores exactly one outfit, each slot the selected item's id or null; the items are unchanged |
| Flows.ViewPantsOnly | js/saved-outfits.js:157-218 | an outfit viewed when only its pants remain shows a placeholder, the pants, and two more placeholders |
| Flows.OpenLoaded | js/saved-outfits.js:157-218 | with both lists loaded, opening an outfit listed once under its id shows its detail tiles against the loaded items |
| Flows.ViewOutfit | js/saved-outfits.js:45-62 | the tiles shown are the detail tiles of the stored outfit against the loaded item list |

## Left out

- DOM rendering and event wiring are left out: templates, `classList`, modals, toasts, `setTimeout`, focus. They are presentation.
- HTTP transport (fetch, Express routing, CORS, body parsing) and SQLite I/O are left out. A request is given as the reply it got, and the tables are the two maps of `Server.Store`.
- `Promise.all` in js/saved-outfits.js:56-59 and js/api.js:159-162 is left out because it is concurrency. The two lists are given as inputs.
- `FileReader` base64 conversion and `toLocaleDateString` are browser APIs. The read result is a parameter, and dates are not formatted.
- `js/main.js` (`animateValue`) is not part of this model. It is a timer-driven float animation.
- `server/init_db.js` is used only for the field list and the `title NOT NULL` constraint.
- The five mutators in js/api.js (`createItem`, `updateItem`, `deleteItem`, `createOutfit`, `deleteOutfit`) only forward the server's reply and rethrow on failure. The pages that call them are modelled up to the request they send (`OutfitBuilder.BuildSaveRequest`, `Gallery.EditRequest`, `Upload.SubmitRequest`, `SavedOutfits.OutfitsPage.DeleteTarget`).
- The gallery's `handleDelete` is a confirm dialog followed by `Server.Store.DeleteItem` and a reload. It keeps no page state, so it has no member of its own.
- Server.Store.CreateItem: the uuid is a parameter rather than a fresh-id oracle. A collision is modelled as SQLite's UNIQUE error.
- Server.Store.ListItems: rows with equal `created_at` come in an order SQLite does not fix. The contract says only non-increasing, each row once.
- Server.Store.UpdateItem: an UPDATE that matches no row raises no constraint error, so an unknown id gives 404 even with a null title.
- OutfitBuilder.Builder.RandomizeOutfit: `Math.random()` is replaced by one index per bucket, chosen by the caller. The index is required to be in range when the bucket is non-empty.
- OutfitBuilder.Builder.SelectItem: the `TypeError` for a category with no bucket is a returned flag, not an exception.
- Text.Lower: lower-cases ASCII letters only. `toLowerCase` on other scripts is not modelled.
- TagJson.DecodeTags: decodes the exact text `JSON.stringify` produces for an array of strings. Other JSON is treated as unparseable and reads as `[]`: whitespace between tokens, a non-array value, surrogate-pair `\u` escapes.
- Api.FetchOne: a reply is either a value or an error body. A non-2xx status with a value and a 2xx status with an error body are folded into these two.
- Upload.CheckImage: the size is a natural number of bytes and the MIME type a string. How the browser derives them is not modelled.
- Gallery.GalleryPage.Heading: shows the corrected lookup of the Findings row (`Api.CategoryIcon`, `Api.CategoryName`). For a tab named after an `Object.prototype` member, such as `toString`, the page as written shows that member's text instead; the contract states agreement with the as-written lookup only for the other tabs.
- SavedOutfits.DetailEntries: the outfit name and item titles are shown as they are. HTML escaping, or the lack of it, is not modelled.

## Findings

| source | as written | input that shows it | evidently intended | confidence | as-written member | corrected member |
|---|---|---|---|---|---|---|
| js/api.js:242-253 | `names[category] \|\| category` and `icons[category] \|\| 'fa-question'` read a plain object literal, so a key inherited from `Object.prototype` finds a function | the gallery opened with `?category=constructor` (title shows a function's source instead of `constructor`); category `toString` (icon class is a function's text instead of `fa-question`) | only the four own keys map to names and icons; any other category is shown unchanged with `fa-question` | medium, not executed | Api.CategoryNameAsWritten | Api.CategoryName |
