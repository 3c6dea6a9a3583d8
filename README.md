# Vocard core, modelled in Dafny

Vocard is a Discord music bot. This project models the parts of it that hold state or make decisions. Each part is written in the form the Python code takes.

- **The MongoDB cache layer** (`MongoDBHandler`, `mongodb.dfy`). The class keeps three class-level dicts:
  - a guild-settings buffer;
  - a user buffer;
  - a last-access table.

  Its coroutines read, create, update and delete documents through these buffers. Every round trip to the collections is a *reply parameter* of the method (`FindReply`, `UpdateReply`, `DeleteReply`, `FindManyReply`, and the success flag of an `insert_one`). The model therefore covers every branch the Python takes on each possible reply. What the collections store is not modelled.

  Each coroutine is a `MongoDBHandler` method. Its contract ties the new buffers and the result to a pure step function on a `Caches` value (`GetSettingsStep`, `UpdateDbStep`, …). `mongodb_properties.dfy` proves what those steps do.
- **`_update_db`'s operator engine** (`update_ops.dfy`, `update_properties.dfy`). It applies `$set`, `$unset`, `$inc`, `$push` (with `$each`/`$slice`) and `$pull` to the cached copy of a document. Dotted keys create missing intermediate dicts. The model includes the Python errors that become an `"Error updating …"` failure.
- **`Pagination`** (`pagination.dfy`). A page cursor over a list. Its pages are proved to partition the list in order.
- **`DynamicViewManager`** (`dynamic_view_manager.dfy`). A named set of views plus the current one.
- **The playlist command guards** (`playlist.dfy`):
  - the id allocator for new playlists ("200" … "209");
  - `check_playlist`'s name lookup;
  - the refusals of `create`, `delete`, `rename` and `remove`.
- **`LangHandler`'s lookups** (`language.dfy`).
- **`Config`** (`config.dfy`): the singleton rule, the source lookup (with its name normalisation) and the playlist limits.
- **`format_ms` / `truncate_string`** (`utils.dfy`).
- **Python's string built-ins** that the code relies on (`pytext.dfy`), such as `lower`, `strip`, `split`, `str(n)` and clamped slices, and **the document values** (`documents.dfy`).

Behaviour the model keeps as the code has it:

- `update_settings` edits a *deep copy* of the cached settings. After a successful update, the settings buffer still holds the document as `get_settings` returned it (`UpdateSettingsKeepsCachedCopy`, `UpdateSettingsStaleExample`). `update_user` instead edits the cached user in place.
- A failed `_update_db` pops the id from *both* buffers, since guild and user ids share one number space. It leaves `_last_access` alone.
- `$slice` is used as a Python slice *start*: `arr[$slice:]` keeps the items from that index on. MongoDB's own `$slice`, a count to keep, is different.
- `cleanup_cache`'s size loop removes the oldest entry of `_last_access`. That entry may be a *user* id, which is not in the settings buffer. In that case the loop stops while the settings buffer is still over `_MAX_CACHE_SIZE` (`MongoDBHandler.TrimToSize`).
- `get_all_languages` returns the keys of the main language table only, although its docstring speaks of main + local codes.
- `truncate_string` with a cut below 3 keeps more text than the cut allows, because `length - 3` is then a negative slice bound (`TruncateShortCut`).

## Model

| member | source | states |
|---|---|---|
| MongoDB.NewUserDocAsWritten | voicelink/mongodb.py:383 | the template a missing user is created from, as the code builds it; it has the template's fields (see Findings) |
| MongoDB.NewUserDoc | voicelink/mongodb.py:382-383 | the intended new-user document: template fields, with `_id` the user's id |
| MongoDB.Rollback | voicelink/mongodb.py:261-266 | a failed update drops the id from the settings and the user buffer and keeps the access table |
| MongoDB.EditsToMap | voicelink/mongodb.py:342 | the `$set` fields of an upsert become the fields of the inserted document |
| MongoDB.GetSettingsStep | voicelink/mongodb.py:269-306 | a successful read leaves the returned document cached under the guild id; a failed read changes nothing and reports a connection failure; users are untouched |
| MongoDB.GetUserStep | voicelink/mongodb.py:353-402 | a failed read changes nothing; success leaves the user cached; settings are untouched; a missing user is built from the corrected template (see Left out) |
| MongoDB.Window | voicelink/mongodb.py:497-501 | `skip`/`limit` select a contiguous run of the matches starting at `skip`, of length `limit` (0 or none meaning all) |
| MongoDB.CacheUsers | voicelink/mongodb.py:504-509 | caching the fetched users leaves the settings buffer as it was |
| MongoDB.MongoDBHandler.constructor | voicelink/mongodb.py:69-75 | the three buffers start empty |
| MongoDB.MongoDBHandler.OldestId | voicelink/mongodb.py:169-173 | `min(_last_access, key=_last_access.get)`: none only for an empty table, otherwise an id with the smallest access time |
| MongoDB.MongoDBHandler.GetSettings | voicelink/mongodb.py:269-306 | the buffers and result are those of `GetSettingsStep` on the old buffers |
| MongoDB.MongoDBHandler.UpdateDb | voicelink/mongodb.py:181-266 | the buffers and result are those of `UpdateDbStep` (operators applied to the target, then the reply, rollback on failure) |
| MongoDB.MongoDBHandler.UpdateSettings | voicelink/mongodb.py:309-350 | the buffers and result are those of `UpdateSettingsStep`: `get_settings`, the update on a detached copy, then the upsert |
| MongoDB.MongoDBHandler.GetUser | voicelink/mongodb.py:353-402 | the buffers and result are those of `GetUserStep` (corrected new-user `_id`, see Left out) |
| MongoDB.MongoDBHandler.UpdateUser | voicelink/mongodb.py:405-446 | the buffers and result are those of `UpdateUserStep`: `get_user`, the update on the cached entry, then the upsert (corrected new-user `_id`, see Left out) |
| MongoDB.MongoDBHandler.DeleteUser | voicelink/mongodb.py:449-472 | the buffers and result are those of `DeleteUserStep` |
| MongoDB.MongoDBHandler.GetUsersByCriteria | voicelink/mongodb.py:475-514 | the loop caches the documents one by one; buffers and result equal `GetUsersStep` |
| MongoDB.MongoDBHandler.CleanupCache | voicelink/mongodb.py:146-178 | users untouched; surviving settings unchanged; every expired guild gone; removed ids leave the access table; size-evicted ids were the oldest; stops under the limit, on an empty table, or when the oldest id is not a guild; and the settings left are exactly the unexpired ones unless the size phase found the cache over its limit, when it stops at the limit |
| MongoDB.MongoDBHandler.DropExpired | voicelink/mongodb.py:157-166 | the expired ids leave the settings buffer and the access table, nothing else changes |
| MongoDB.MongoDBHandler.TrimToSize | voicelink/mongodb.py:169-173 | `EvictedOldest`: the kept settings are unchanged, the access table loses exactly the evicted ids, every evicted id was no newer than any id still in the table, and nothing is evicted from a cache at or under the limit (the buffer never drops below it); stops under the limit or when the oldest id is not a cached guild; users untouched |
| MongoDBProperties.NewUserIdIsPlaceholder | voicelink/mongodb.py:383 | as written, every new user's `_id` is the template's 0, not the user id |
| MongoDBProperties.NewUserIdsDistinct | voicelink/mongodb.py:382-383 | corrected: two new users have the same `_id` exactly when their ids are equal, and agree elsewhere |
| MongoDBProperties.GetSettingsCreatesDefault | voicelink/mongodb.py:291-303 | a miss with no stored document creates, returns and caches `{"_id": guild_id}` with the current access time |
| MongoDBProperties.GetSettingsCachedRead | voicelink/mongodb.py:291-303 | after a successful read, a non-forced read is served from the cache and changes nothing |
| MongoDBProperties.GetSettingsRefreshReplaces | voicelink/mongodb.py:291-303 | a forced refresh caches and returns what the collection found |
| MongoDBProperties.UpdateDbOutcome | voicelink/mongodb.py:206-266 | failure means rollback and either a rejected update or a failed reply; success means an acknowledged reply, result `modified_count > 0` and a refreshed access time; an unknown operator is rejected with rollback |
| MongoDBProperties.UpdateDbWritesLiveEntry | voicelink/mongodb.py:181-250 | on the live user entry the edited document replaces the cached one; a detached copy leaves both buffers as they were |
| MongoDBProperties.UpdateSettingsKeepsCachedCopy | voicelink/mongodb.py:332-347 | after a successful `update_settings` the cached settings are still those `get_settings` returned, or the upsert document |
| MongoDBProperties.UpdateSettingsStaleExample | voicelink/mongodb.py:332-347 | a concrete run: `$set lang FR` succeeds while the cache keeps "EN" |
| MongoDBProperties.UpsertDocFields | voicelink/mongodb.py:340-345 | the upserted document has `_id` and exactly the `$set` fields |
| MongoDBProperties.GetUserNewUserField | voicelink/mongodb.py:380-399 | with the corrected template (see Findings), a new user answers each template field with the template value and `_id` with its id, and is cached |
| MongoDBProperties.GetUserInvalidTypeAfterLoad | voicelink/mongodb.py:380-397 | an unknown `d_type` fails only after the user was loaded and cached |
| MongoDBProperties.GetUserFieldStable | voicelink/mongodb.py:380-399 | reading the same field twice gives the same value and the second read changes nothing |
| MongoDBProperties.UpdateUserRefreshesCache | voicelink/mongodb.py:428-443 | after a successful `update_user` the cache holds the edited user (or the upsert document) |
| MongoDBProperties.DeleteUserOutcome | voicelink/mongodb.py:462-469 | true exactly for an acknowledged deletion of at least one document; then the user and its access time are gone; otherwise nothing changes |
| MongoDBProperties.CacheUsersSucceeds | voicelink/mongodb.py:504-509 | caching succeeds exactly when every document has an integer `_id`, and returns the documents unchanged |
| MongoDBProperties.CacheUsersFrame | voicelink/mongodb.py:504-509 | users whose id is not among the documents keep their cache entry and access time |
| MongoDBProperties.CacheUsersCachesAll | voicelink/mongodb.py:504-509 | every fetched user ends up cached |
| MongoDBProperties.CacheUsersLastWins | voicelink/mongodb.py:504-509 | a user listed more than once is cached as its last document |
| MongoDBProperties.GetUsersOutcome | voicelink/mongodb.py:475-514 | a failed query changes nothing; otherwise the window of the matches is cached and returned |
| MongoDBProperties.GetSettingsKeepsConsistent | voicelink/mongodb.py:269-306 | every cached id keeps an access time |
| MongoDBProperties.UpdateDbKeepsConsistent | voicelink/mongodb.py:181-266 | every cached id keeps an access time |
| MongoDBProperties.UpdateSettingsKeepsConsistent | voicelink/mongodb.py:309-350 | every cached id keeps an access time |
| MongoDBProperties.UpdateUserKeepsConsistent | voicelink/mongodb.py:405-446 | every cached id keeps an access time |
| MongoDBProperties.GetUserKeepsConsistent | voicelink/mongodb.py:353-402 | every cached id keeps an access time |
| MongoDBProperties.DeleteUserKeepsConsistent | voicelink/mongodb.py:462-469 | every cached id keeps an access time, given the id is not also a cached guild |
| MongoDBProperties.CacheUsersKeepsConsistent | voicelink/mongodb.py:504-509 | every cached id keeps an access time |
| UpdateOps.ParseOperator | voicelink/mongodb.py:206-208 | exactly the five operator names are accepted |
| UpdateOps.Membership | voicelink/mongodb.py:244-248 | `x in container` raises exactly for a container that is not a list, dict or string, an unhashable key for a dict, or a non-string in a string; for a list it is true exactly when some item equals `x`; a dict holds exactly its string keys (key presence); a string holds a string exactly when it fills some window of it |
| UpdateOps.Iterate | voicelink/mongodb.py:237-238 | `list.extend` accepts exactly a list or a string; a list gives back its own items, a string one one-character string per character, which spell the string again |
| UpdateOps.SliceStart | voicelink/mongodb.py:240 | an integer or bool `$slice` is the slice start, `None` starts at 0, and any other operand raises |
| UpdateOps.Retain | voicelink/mongodb.py:247-248 | the comprehension raises exactly when one of the items' `in` test raises; otherwise (`Kept`) it keeps only items of the list that the values do not hold, keeps every such item with its multiplicity, keeps the list's order, and never grows |
| UpdateOps.Without | voicelink/mongodb.py:248 | no remaining item equals a pulled value; every other item is kept as often as it occurred; the kept items are a subsequence of the list, in their order |
| UpdateOps.RetainList | voicelink/mongodb.py:247-248 | pulling a list of values never raises and keeps exactly the unequal items |
| UpdateOps.Leaf | voicelink/mongodb.py:225-248 | a successful operator changes only the named field of its container |
| UpdateOps.EditAt | voicelink/mongodb.py:213-250 | a successful edit changes only the first path field; failures are an invalid path or an error on that key |
| UpdateOps.ApplyEdit | voicelink/mongodb.py:213-250 | a successful edit changes only the top-level field its key starts with (the deeper levels are framed by `ApplyEditFrames`) |
| UpdateProperties.EditAtFrames | voicelink/mongodb.py:213-250 | at every level of the path, the dict the edit passes through keeps every field but the next one on the path |
| UpdateProperties.ApplyEditFrames | voicelink/mongodb.py:213-250 | the same for a dotted key on a document: siblings at every depth, such as `playlist["200"]` under `$set "playlist.201.name"`, are untouched |
| UpdateOps.ApplyEdits | voicelink/mongodb.py:210-250 | applying one operator's edits never reports an invalid operation |
| UpdateOps.ApplyAll | voicelink/mongodb.py:210-250 | applying all edits never reports an invalid operation |
| UpdateOps.ApplyUpdate | voicelink/mongodb.py:206-250 | the update is rejected as an invalid operation exactly when an operator name is unknown |
| UpdateOps.ApplyOperations | voicelink/mongodb.py:206-250 | the loop over operators and edits computes `ApplyUpdate` |
| UpdateProperties.EditAtWalk | voicelink/mongodb.py:213-222 | an edit fails with an invalid path exactly when an intermediate is not a dict; otherwise it applies the operator at the container reached |
| UpdateProperties.ApplyEditAtContainer | voicelink/mongodb.py:213-250 | the edit of a dotted key is the operator applied at the container that key leads to |
| UpdateProperties.SetWritesAtPath | voicelink/mongodb.py:225-226 | `$set` stores the operand at the key |
| UpdateProperties.UnsetRemovesAtPath | voicelink/mongodb.py:227-228 | `$unset` removes the field, present or not |
| UpdateProperties.UnsetAbsentTopLevelIsNoOp | voicelink/mongodb.py:227-228 | unsetting an absent top-level field leaves the document unchanged |
| UpdateProperties.UnsetCreatesIntermediates | voicelink/mongodb.py:219-228 | unsetting "a.b" in `{}` leaves `{"a": {}}` |
| UpdateProperties.IncRejects | voicelink/mongodb.py:229-232 | `$inc` fails with an error on the key when the field (0 when missing) or the operand is not a number |
| UpdateProperties.IncStoresSum | voicelink/mongodb.py:229-232 | otherwise `$inc` stores the field's number (0 when the field is missing) plus the delta at the key |
| UpdateProperties.PushAtPath | voicelink/mongodb.py:233-242 | `$push` starts a missing field as `[]`, rejects a non-list field and stores the pushed list |
| UpdateProperties.PushAppendsOne | voicelink/mongodb.py:241-242 | without `$each`, the operand is appended as one item |
| UpdateProperties.PushEachThenSlice | voicelink/mongodb.py:237-240 | with `$each` the list is extended, then cut to `arr[$slice:]` |
| UpdateProperties.SliceIsAStartIndex | voicelink/mongodb.py:240 | pushing 1..5 with `$slice` 3 keeps [4, 5]; with -3 it keeps [3, 4, 5] |
| UpdateProperties.PullAtPath | voicelink/mongodb.py:243-248 | `$pull` filters a list field, and rejects other fields after the `in` test |
| UpdateProperties.WithoutAppend | voicelink/mongodb.py:248 | filtering distributes over concatenation |
| UpdateProperties.PullOneAtPath | voicelink/mongodb.py:243-248 | pulling a plain value leaves the items unequal to it |
| UpdateProperties.PushOneAtPath | voicelink/mongodb.py:233-242 | pushing a plain value appends it |
| UpdateProperties.PushThenPullRemoves | voicelink/mongodb.py:233-248 | a value pushed and then pulled is absent from the field |
| UpdateProperties.UnknownOperatorRejected | voicelink/mongodb.py:206-208 | one unknown operator name rejects the whole update |
| Paging.CeilDiv | voicelink/views/utils/pagination.py:58 | `ceil(n / d)`: the least page count that holds n items |
| Paging.PageOf | voicelink/views/utils/pagination.py:82-89 | page k holds at most `size` items, taken in order from index `k * size` |
| Paging.PagesArePrefix | voicelink/views/utils/pagination.py:82-89 | the first k pages, concatenated, are the first `k * size` items |
| Paging.PagesCoverItems | voicelink/views/utils/pagination.py:82-89 | all pages, concatenated, are exactly the items |
| Paging.PageSizes | voicelink/views/utils/pagination.py:82-89 | every page is non-empty and every page but the last is full |
| Paging.FirstIndex | voicelink/views/utils/pagination.py:77 | the position of an occurrence of `x` with none before it |
| Paging.RemoveFirst | voicelink/views/utils/pagination.py:77 | `list.remove`: the list with the item at the first occurrence's position cut out, the rest in order; one `x` fewer in the multiset |
| Paging.Pagination.constructor | voicelink/views/utils/pagination.py:41-58 | starts on page 0 with `ceil(len / size)` pages |
| Paging.Pagination.Create | voicelink/views/utils/pagination.py:52-53 | a page size of 0 or less is refused |
| Paging.Pagination.HasNextPage | voicelink/views/utils/pagination.py:110-118 | true exactly when items lie after the end of the current page |
| Paging.Pagination.HasPreviousPage | voicelink/views/utils/pagination.py:120-128 | true exactly when items lie before the start of the current page |
| Paging.Pagination.StartIndex | voicelink/views/utils/pagination.py:130-138 | the items before the start are exactly the pages before the current one; the start is strictly inside the items when there are any |
| Paging.Pagination.EndIndex | voicelink/views/utils/pagination.py:140-148 | the items before the end are exactly the pages up to and including the current one (0 for no items); at most one page after the start |
| Paging.Pagination.GetCurrentPageItems | voicelink/views/utils/pagination.py:82-89 | the current page of the partition; 1 to `page_size` items when there are items |
| Paging.Pagination.CurrentPage | voicelink/views/utils/pagination.py:150-158 | the 1-based page number: one more than the number of pages before the shown one, and within the page count |
| Paging.Pagination.TotalItems | voicelink/views/utils/pagination.py:160-168 | what the pages hold together, which fills the last page partly or fully and the others fully |
| Paging.Pagination.AddItem | voicelink/views/utils/pagination.py:60-68 | appends the item and recounts the pages; the cursor stays valid |
| Paging.Pagination.RemoveItem | voicelink/views/utils/pagination.py:70-80 | removes the first occurrence (raising when absent), recounts, pulls the cursor back onto the last page |
| Paging.Pagination.GoBack | voicelink/views/utils/pagination.py:91-94 | moves back one page unless on the first |
| Paging.Pagination.GoNext | voicelink/views/utils/pagination.py:96-99 | moves on one page unless on the last |
| Paging.Pagination.GoPage | voicelink/views/utils/pagination.py:101-108 | jumps to the page, clamped into the existing pages |
| ViewManager.DynamicViewManager.constructor | views/utils/dynamic_view_manager.py:28-33 | holds the given views, none current |
| ViewManager.DynamicViewManager.GetView | views/utils/dynamic_view_manager.py:52-62 | the view under the key, none exactly when absent |
| ViewManager.DynamicViewManager.AddView | views/utils/dynamic_view_manager.py:39-50 | refuses a taken name, otherwise adds the view; the current view is kept |
| ViewManager.DynamicViewManager.RemoveView | views/utils/dynamic_view_manager.py:64-72 | the key is gone, the rest and the current view kept |
| ViewManager.DynamicViewManager.ChangeView | views/utils/dynamic_view_manager.py:74-89 | an unknown name fails and keeps the current view; afterwards a known one is what `get_current_view` and `get_view` both answer, and is returned |
| Playlists.AssignPlaylistId | cogs/playlist.py:41-44 | the first of "200" … "209" not in use; none exactly when all ten are taken |
| Playlists.CreateKey | cogs/playlist.py:314 | as a dotted path the key leads to the id's entry of the "playlist" dict (`["playlist", id]` for an id without a dot), or to "None" when no id was free |
| Playlists.CandidatesCount | cogs/playlist.py:41-44 | there are exactly ten candidate ids |
| Playlists.FreeIdExists | cogs/playlist.py:41-44 | fewer than ten distinct ids in use leave a free candidate |
| Playlists.FindByName | cogs/playlist.py:69-72 | the 1-based position and id of the first playlist whose name matches case-insensitively; none exactly when none matches |
| Playlists.CheckPlaylist | cogs/playlist.py:56-83 | no name selects the default playlist "200" at position 1; a name selects the first case-insensitive match, or nothing |
| Playlists.CreateCheck | cogs/playlist.py:296-307 | creation is allowed exactly when the name fits 10 characters, the user is under the limit and no name matches; each refusal ('playlistOverText', 'overPlaylistCreation', 'playlistExists') comes back exactly when it applies |
| Playlists.CreateFindsId | cogs/playlist.py:296-314 | with a limit of at most ten and distinct ids, an allowed creation always finds a free id |
| Playlists.IdsDistinctCount | cogs/playlist.py:296-314 | the number of distinct ids is at most the number of playlists |
| Playlists.RenameCheck | cogs/playlist.py:386-404 | refusals for a long new name, the same name, a taken name and a missing playlist, each exactly when it applies; a rename exactly when none applies, of the last playlist with the old name |
| Playlists.DeleteCheck | cogs/playlist.py:321-333 | deletion is allowed exactly for an existing playlist other than "200"; 'playlistNotFound' exactly for a missing playlist and 'playlistDeleteError' exactly for "200" |
| Playlists.RemoveCheck | cogs/playlist.py:478-491 | removal is allowed exactly for an owned playlist and a position within its tracks, and returns that track; 'playlistNotFound', 'playlistNotAllow' and 'playlistPositionNotFound' each come back exactly when they apply |
| Language.SelectTable | voicelink/language.py:96-100 | the table of the upper-cased code, else English, else empty |
| Language.GetLangStrings | voicelink/language.py:85-106 | one key gives one string, otherwise one string per key |
| Language.ManyIsPointwise | voicelink/language.py:105-106 | each of several keys gives its entry or "Not found!" |
| Language.FoundKeyGivesEntry | voicelink/language.py:100-103 | a key the selected table holds gives that table's string |
| Language.MissingKeyNotFound | voicelink/language.py:101-103 | a missing key gives "Not found!" |
| Language.LangCaseInsensitive | voicelink/language.py:96 | the code's case does not matter |
| Language.UnknownLangIsEnglish | voicelink/language.py:97-98 | an unknown code answers as English |
| Language.NothingLoadedNotFound | voicelink/language.py:97-106 | with neither table loaded, every key is "Not found!" |
| Language.GetLang | voicelink/language.py:109-123 | the guild's "lang" setting, defaulting to English, selects the table; a non-string setting fails |
| Language.AllLanguages | voicelink/language.py:126-133 | the listed codes are exactly the main tables' keys; every listed (upper-case) code selects its own table, and a code whose upper-cased form is not listed answers as English |
| Configuration.Normalize | voicelink/config.py:126 | a normalised source name has no spaces and is no longer than the name |
| Configuration.NormalizeIdempotent | voicelink/config.py:126 | normalising twice is normalising once |
| Configuration.NormalizeIgnoresCase | voicelink/config.py:126 | case does not change the normal form |
| Configuration.NormalizeIgnoresLeadingSpace | voicelink/config.py:126 | a leading space does not change the normal form |
| Configuration.SourceConfig | voicelink/config.py:123-132 | non-string arguments give none; otherwise the source's entry, else the "others" entry, else none |
| Configuration.PlaylistConfig | voicelink/config.py:134-137 | the limits with their defaults 5, 500 and "Favourite" |
| Configuration.Config.constructor | voicelink/config.py:56 | a new object is not initialized |
| Configuration.Config.Init | voicelink/config.py:65-103 | a no-op on an initialized object; otherwise reads the two settings blocks and marks the object initialized |
| Configuration.ConfigClass.constructor | voicelink/config.py:41 | no instance yet |
| Configuration.ConfigClass.New | voicelink/config.py:45-63 | settings create and install a fresh initialized instance; without settings the existing instance is returned, created and initialized empty when needed |
| Configuration.ConfigClass.GetSourceConfig | voicelink/config.py:105-132 | the lookup through the installed instance; non-string arguments give none first; without an instance it fails |
| Configuration.ConfigClass.GetPlaylistConfig | voicelink/config.py:134-137 | the limits of the installed instance; fails exactly without one |
| Utils.ClockOf | voicelink/utils.py:260-263 | the fields are in range and rebuild the whole seconds of the duration |
| Utils.Decompose | voicelink/utils.py:260-263 | the four divisions are nested divisions of the whole seconds |
| Utils.FormatMsReadsBack | voicelink/utils.py:265-269 | under a day, the output's colon-separated fields read back as the whole seconds; an hours field is present exactly from an hour on |
| Utils.FormatMsDays | voicelink/utils.py:265-266 | from a day on, the output is the day count, " days, " and a full clock of the rest of the day |
| Utils.FormatMsMinutesExample | voicelink/utils.py:253-255 | 65000 gives "01:05" |
| Utils.FormatMsHoursExample | voicelink/utils.py:253-255 | 3723000 gives "1:02:03" |
| Utils.FormatMsDaysExample | voicelink/utils.py:253-255 | 90061000 gives "1 days, 01:01:01" |
| Utils.TruncateString | voicelink/utils.py:287-298 | short text is unchanged; longer text becomes a prefix plus "...", of the exact cut length when the cut is at least 3 |
| Utils.Truncate40 | voicelink/utils.py:287 | with the default cut, at most 40 characters, unchanged exactly when the text fits |
| Utils.TruncateIdempotent | voicelink/utils.py:287-298 | truncating twice is truncating once |
| Utils.TruncateShortCut | voicelink/utils.py:298 | a cut below 3 gives output longer than the cut |

## Left out

- The Motor client, the `asyncio.Lock` and the `init` coroutine are left out. Each collection call is a reply parameter, and the collections' own update semantics are not modelled.
- Clock readings (`time.time()`) are an integer parameter `now`. Float timestamps and float milliseconds in `format_ms` are not modelled.
- Deep copies and the `need_copy` flag are left out. Documents are values, so the aliasing between a returned document and the cache is not captured. `update_settings`'s detached copy is modelled explicitly.
- MongoDB.MongoDBHandler.OldestId: it picks some entry with the least access time. Python's `min` picks the first such entry in dict insertion order, and the model does not track that order.
- The exception handler of `cleanup_cache` (mongodb.py:177-178) only logs. The model ends the size loop at the point where Python's `del` of a user id raises `KeyError` into that handler.
- `get_users_by_criteria` with a non-integer `_id` fails with `MissingUserId` in the model; the Python code would cache under that key. Negative `skip`/`limit` values are not modelled.
- Case mapping (`lower`/`upper`) is ASCII-only. Python's full Unicode case mapping is not modelled.
- `$each` given a dict or another iterable other than a list or string is not modelled.
- `check_playlist` with `share=True` or `full=True` is not modelled; it resolves shared playlists from another user's document. Only the owner's view, `share=False`, is modelled.
- The Discord glue of the playlist commands is left out: embeds, messages, interactions, permission checks and the database calls they make.
- Placeholders, `get_width`/`pad_string`, `ExponentialBackoff`, `Ping`, `format_bytes` and `format_to_ms` are not part of this model.
- `LangHandler.init` is left out. It is file loading, so the tables are a parameter. Local-language tables are not modelled.
- Environment variables, JSON parsing and `Config`'s other settings are left out. The model keeps only the two blocks the lookups read.
- The views' Discord timeouts and callbacks are left out.
- ViewManager.DynamicViewManager.constructor: the views map is copied into the object. The Python object keeps the caller's dict itself (`self._views = views`), so changes made through either reference reaching the other are not captured.
- MongoDB.GetUserStep: a missing user is created from the corrected template, so its cached and returned `_id` is the user id where the code as written gives 0 (see Findings; `NewUserDocAsWritten` and `NewUserIdIsPlaceholder` model the code as written).
- MongoDB.MongoDBHandler.GetUser: proved equal to `GetUserStep`, so it inherits the corrected `_id` of a new user.
- MongoDB.UpdateUserStep: runs through `GetUserStep`, so a user created by `update_user` also gets the corrected `_id`.
- MongoDB.MongoDBHandler.UpdateUser: proved equal to `UpdateUserStep`, so a new user's cached `_id` is the user id, not the code's 0.
- MongoDBProperties.GetUserNewUserField: states the corrected template's `_id`; for the code as written the `_id` answer is 0 (`NewUserIdIsPlaceholder`).
- Pagination.constructor: the item list is copied into the object. The Python object shares the caller's list, so later outside mutation of that list is not captured.

## Findings

| source | as written | input that shows it | evidently intended | confidence | as-written member | corrected member |
|---|---|---|---|---|---|---|
| voicelink/mongodb.py:383 | a missing user is created as `{"_id": user_id, **deepcopy(_user_base)}`; the template's later `"_id": 0` overrides the id | `get_user(42)` for a user with no document inserts and caches `_id` 0 | the new document carries `_id` 42, as the template's comment says | not executed | MongoDB.NewUserDocAsWritten (MongoDBProperties.NewUserIdIsPlaceholder) | MongoDB.NewUserDoc (MongoDBProperties.NewUserIdsDistinct) |
