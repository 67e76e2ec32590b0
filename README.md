# vibe-photoshop, modelled in Dafny

vibe-photoshop is a SvelteKit image editor. A user writes a prompt, Gemini generates or
edits a picture, and the client keeps the results as versioned image records. This
project models the logic behind that loop:

- **The two image-record stores.**
  - The `localStorage` service keeps each record as JSON text under
    `vibe_photoshop_image_<id>`.
  - The IndexedDB service keeps one object store keyed by `id`, with its dates held as text.
- **Storage housekeeping.** The quota check over the app's keys, and the two
  version-trimming policies.
- **The three Svelte stores:**
  - the image being edited, with its bounded back-history;
  - the chat transcript;
  - the toast list.
- **The Gemini layer:**
  - the browser service that reads the key, builds requests and splits a reply into texts
    and images;
  - the two server routes that check a request and shape the JSON answer, including the
    conversation history sent back by the multi-turn route.
- **The user service:** the name split, the saved user and the stored key.
- **The image utilities:** the thumbnail size rule and the grayscale, sepia and invert
  loops over an RGBA buffer.

Each source file is one Dafny module:

| source file | module |
|---|---|
| stores | `ImageStore`, `ChatStore`, `ToastStore` |
| `images.ts` | `ImageStorage` |
| `storageManager.ts` | `StorageManager` |
| `indexedDB.ts` | `ImageDatabase` |
| `user.ts` | `UserService` |
| `gemini.ts` | `GeminiClient` |
| the routes | `GenerationRoute`, `ContinuousEditRoute` |
| `image.ts` | `ImageProcessing` |

Shared modules hold what several files rely on:

- `Types`: the records of `types/index.ts`, plus `Option` and `Result`.
- `Text`: `startsWith`, the UTF-16 and UTF-8 lengths, the decimal text of a `getTime()`
  value, and `split`/`join`.
- `JsonCodec`: `JSON.stringify`/`JSON.parse` for the stored records.
- `Collections`: the newest-first sort and the scan of a key/value store.
- `GeminiProtocol`: the API's part and content shapes, and the rule that splits a reply.
- `WebStorage`: `localStorage` as a class over a key→string map.

Code that changes state in place is written as it is in the source:

- A Svelte `writable` is a class whose methods apply a pure transition to its state.
- `localStorage` and the IndexedDB object store are objects whose maps the operations
  reassign.
- The storage scans, the reply loops and the pixel loops are `while` loops with invariants.
- The pixel loops work on an `array<real>` in place.

Each of these methods is proved against a specification function. The properties the
source promises are proved about those functions.

Everything outside the program is an input:

- the clock (`now`);
- fresh ids;
- the `browser` flag;
- whether the browser accepts a `setItem`;
- the JPEG compressor's output;
- the model's reply, or the error the SDK throws.

Timestamps are integers, counted in milliseconds.

## Model

| member | source | states |
|---|---|---|
| ImageStore.Pushed | src/lib/stores/imageStore.ts:46-52 | pushing onto the history: the pushed image ends the list, the old list (less its oldest entry when already five long) precedes it, and a history within five stays within five |
| ImageStore.SetCurrent | src/lib/stores/imageStore.ts:42-60 | `setCurrentImage` always makes the argument current; with no current image or one of the same id the history is unchanged; no other field changes |
| ImageStore.SetCurrentHistory | src/lib/stores/imageStore.ts:46-52 | when a different image was current, it becomes the last history entry after the earlier ones (dropping the oldest when five are held), so the history never exceeds five |
| ImageStore.SelectVersion | src/lib/stores/imageStore.ts:63-76 | with no current image nothing changes; otherwise only the current image's `imageUrl` and `updatedAt` change, its versions stay |
| ImageStore.AddVersion | src/lib/stores/imageStore.ts:79-95 | with no current image nothing changes; otherwise the version is appended after the old ones, becomes the image's `imageUrl`, and sets `updatedAt`; nothing else changes |
| ImageStore.GoBack | src/lib/stores/imageStore.ts:131-144 | an empty history is a no-op; otherwise the last history entry becomes current and the history loses it; the bound of five is kept |
| ImageStore.ToggleVersionHistory | src/lib/stores/imageStore.ts:123-128 | flips `showVersionHistory` and changes nothing else |
| ImageStore.Versions | src/lib/stores/imageStore.ts:153-155 | the derived `imageVersions` is the current image's version list, or empty when there is none |
| ImageStore.CanGoBack | src/lib/stores/imageStore.ts:158-160 | `canGoBack` holds exactly when the history is non-empty |
| ImageStore.SetThenGoBack | src/lib/stores/imageStore.ts:42-60 | switching to an image of a different id and then going back restores the previous image; the whole state returns unless the history was full, when only its oldest entry is lost |
| ImageStore.SetSameIdKeepsHistory | src/lib/stores/imageStore.ts:46 | replacing the current image by one with the same id only replaces it |
| ImageStore.ToggleTwice | src/lib/stores/imageStore.ts:123-128 | toggling the version-history flag twice restores the state |
| ImageStore.GoBackNeedsHistory | src/lib/stores/imageStore.ts:131-144 | when `canGoBack` is false `goBack` changes nothing; when true it shortens the history by one |
| ImageStore.ImageStoreCell.constructor | src/lib/stores/imageStore.ts:23-31 | the store starts in the initial state |
| ImageStore.ImageStoreCell.SetCurrentImage | src/lib/stores/imageStore.ts:42-60 | the shift/push on a copy of the history yields `SetCurrent` of the old state and keeps the history within five |
| ImageStore.ImageStoreCell.SelectImageVersion | src/lib/stores/imageStore.ts:63-76 | the new state is `SelectVersion` of the old |
| ImageStore.ImageStoreCell.AddImageVersion | src/lib/stores/imageStore.ts:79-95 | the new state is `AddVersion` of the old |
| ImageStore.ImageStoreCell.SetGenerating | src/lib/stores/imageStore.ts:98-103 | only `isGenerating` changes |
| ImageStore.ImageStoreCell.SetUploading | src/lib/stores/imageStore.ts:106-111 | only `isUploading` changes |
| ImageStore.ImageStoreCell.SetSelectedImage | src/lib/stores/imageStore.ts:114-120 | only the selected file and its preview URL change |
| ImageStore.ImageStoreCell.ToggleHistory | src/lib/stores/imageStore.ts:123-128 | the new state is `ToggleVersionHistory` of the old |
| ImageStore.ImageStoreCell.Back | src/lib/stores/imageStore.ts:131-144 | popping a copy of the history yields `GoBack` of the old state and keeps the bound |
| ImageStore.ImageStoreCell.Reset | src/lib/stores/imageStore.ts:147-149 | the state returns to the initial one |
| ChatStore.NewMessage | src/lib/stores/chatStore.ts:39-52 | a whole message is taken as given; a text becomes a message exactly when a type is supplied, with that type, the text and the time |
| ChatStore.AddMessage | src/lib/stores/chatStore.ts:34-59 | an invalid input leaves the state unchanged; otherwise exactly one message is appended after the old ones; prompt and error never change |
| ChatStore.UpdateLastMessage | src/lib/stores/chatStore.ts:62-74 | an empty transcript is a no-op; otherwise the length and all but the last entry are kept and the last becomes the argument |
| ChatStore.UpdateLastTwice | src/lib/stores/chatStore.ts:62-74 | replacing the last message twice is the same as replacing it once with the second |
| ChatStore.UpdateAfterAdd | src/lib/stores/chatStore.ts:34-74 | appending a message and then replacing the last is the same as appending the replacement |
| ChatStore.ChatStoreCell.constructor | src/lib/stores/chatStore.ts:20-24 | the store starts empty with an empty prompt and error |
| ChatStore.ChatStoreCell.Add | src/lib/stores/chatStore.ts:34-59 | the new state is `AddMessage` of the old |
| ChatStore.ChatStoreCell.UpdateLast | src/lib/stores/chatStore.ts:62-74 | the in-place write to the last slot of a copy yields `UpdateLastMessage` of the old state |
| ChatStore.ChatStoreCell.ClearMessages | src/lib/stores/chatStore.ts:77-82 | messages become empty; prompt and error stay |
| ChatStore.ChatStoreCell.SetPrompt | src/lib/stores/chatStore.ts:85-90 | only the prompt changes |
| ChatStore.ChatStoreCell.ClearPrompt | src/lib/stores/chatStore.ts:93-98 | only the prompt changes, to empty |
| ChatStore.ChatStoreCell.SetError | src/lib/stores/chatStore.ts:101-106 | only the error changes |
| ToastStore.HelperDuration | src/lib/stores/toastStore.ts:53-67 | the typed helpers default to 3000 ms for success and info, 4000 for error and 3500 for warning |
| ToastStore.Without | src/lib/stores/toastStore.ts:40-44 | the filtered list holds exactly the old toasts whose id differs, and is no longer |
| ToastStore.WithoutAppend | src/lib/stores/toastStore.ts:40-44 | the filter distributes over concatenation, so the kept toasts stay in order |
| ToastStore.WithoutAbsent | src/lib/stores/toastStore.ts:40-44 | removing an id no toast carries changes nothing |
| ToastStore.WithoutIdempotent | src/lib/stores/toastStore.ts:40-44 | removing the same id twice is removing it once |
| ToastStore.RemoveAfterAdd | src/lib/stores/toastStore.ts:22-44 | removing a freshly added toast by its new id restores the list |
| ToastStore.ToastList.constructor | src/lib/stores/toastStore.ts:19 | the list starts empty |
| ToastStore.ToastList.Add | src/lib/stores/toastStore.ts:22-38 | outside the browser returns "" and changes nothing; otherwise appends exactly one toast with the message, the type (default info) and the duration (default 3000) and returns its id |
| ToastStore.ToastList.Notify | src/lib/stores/toastStore.ts:53-67 | each typed helper appends one toast of its own type with its own default duration |
| ToastStore.ToastList.Remove | src/lib/stores/toastStore.ts:40-44 | in the browser the list becomes `Without(old, id)` |
| ToastStore.ToastList.Clear | src/lib/stores/toastStore.ts:46-50 | in the browser the list becomes empty |
| ImageStorage.ImageKey | src/lib/services/storage/images.ts:174 | a record's key is the image prefix followed by exactly its id |
| ImageStorage.ImageKeyInjective | src/lib/services/storage/images.ts:191 | two ids never share a key |
| ImageStorage.ToDataUrl | src/lib/services/storage/images.ts:39 | the result always starts with `data:`; it is the input exactly when the input already does, and the JPEG data-URL prefix plus the input otherwise |
| ImageStorage.ToDataUrlIdempotent | src/lib/services/storage/images.ts:39 | normalising twice is normalising once |
| ImageStorage.GeneratedImage | src/lib/services/storage/images.ts:31-59 | id `img-<ms>`, status completed, `createdAt == updatedAt`, thumbnail and URL the normalised input, metadata 1024×1024 jpeg with the raw input's length, and exactly one version carrying the prompt and the image's URL |
| ImageStorage.AppendVersion | src/lib/services/storage/images.ts:98-103 | the version is appended after the old ones, its URL becomes the image's, `updatedAt` is set, and id, userId, prompt, thumbnail, status, createdAt and metadata stay |
| ImageStorage.LoadImage | src/lib/services/storage/images.ts:200-223 | a record is returned only when its key is present and its text parses as an image |
| ImageStorage.LoadAfterSave | src/lib/services/storage/images.ts:187-223 | reading a record back after writing it gives the same record, dates included |
| ImageStorage.LoadAfterSaveOther | src/lib/services/storage/images.ts:187-223 | writing one record does not change what any other id reads |
| ImageStorage.SaveImageToStorage | src/lib/services/storage/images.ts:187-195 | in the browser an accepted write stores the record's JSON under its key; a refused write (swallowed) or the server changes nothing |
| ImageStorage.SaveGeneratedImage | src/lib/services/storage/images.ts:23-65 | outside the browser it fails with "Cannot save image in server context"; otherwise it returns the new record even when the write is refused, and stores it when accepted |
| ImageStorage.AddImageVersion | src/lib/services/storage/images.ts:75-109 | an absent or unreadable id (or the server) gives null and writes nothing; otherwise the stored record gets one version appended and the accepted write reads back as the result |
| ImageStorage.UserImageAt | src/lib/services/storage/images.ts:125-142 | an entry is listed only when its key has the image prefix, its text parses as an image, and that image belongs to the user |
| ImageStorage.GetUserImages | src/lib/services/storage/images.ts:117-152 | the listing is newest `createdAt` first, every entry is a readable record of the user, every such record is listed, and each record occurs exactly as often as there are keys holding it |
| ImageStorage.DeleteImage | src/lib/services/storage/images.ts:170-180 | in the browser returns true even when nothing was stored and removes exactly the record's key; afterwards the id reads as null |
| ImageStorage.WithImageKeepsWellKeyed | src/lib/services/storage/images.ts:191 | writes through the service keep every readable record under its own id's key |
| StorageManager.UsageIgnoresOtherKeys | src/lib/services/storage/storageManager.ts:31 | a key without the app prefix does not count toward usage, whatever it holds |
| StorageManager.UsageAfterRemove | src/lib/services/storage/storageManager.ts:29-34 | removing a key lowers the usage by exactly that entry's share |
| StorageManager.HasEnoughStorage | src/lib/services/storage/storageManager.ts:23-42 | true exactly when in the browser and the summed `length` of all prefixed values plus the new size is strictly below 5 MiB |
| StorageManager.GetDataSize | src/lib/services/storage/storageManager.ts:136-138 | the UTF-8 byte count (`Utf8Length`): equal to the length for ASCII text, strictly above the UTF-16 length otherwise, at most four bytes per character |
| StorageManager.TrimVersions | src/lib/services/storage/storageManager.ts:110-113 | keeps the last five versions in their order (a suffix, so the newest appended survives) and changes no other field |
| StorageManager.CleanupCandidate | src/lib/services/storage/storageManager.ts:89-104 | an entry is visited only when its key has the image prefix, its text parses, and its id is not the excluded one |
| StorageManager.TrimWrite | src/lib/services/storage/storageManager.ts:110-124 | a record is rewritten exactly when it has more than five versions, under its own key with the trimmed versions |
| StorageManager.WriteTrimmedAt | src/lib/services/storage/storageManager.ts:110-124 | after the write-back a visited record's key holds its trimmed JSON when it had more than five versions and the browser accepted the write, and its old text otherwise |
| StorageManager.WriteTrimmedIsCleaned | src/lib/services/storage/storageManager.ts:82-129 | writing back the visited records gives the entry-by-entry cleaned store, whatever their order |
| StorageManager.CollectCandidates | src/lib/services/storage/storageManager.ts:86-107 | collects exactly the records the cleanup visits, sorted newest `updatedAt` first |
| StorageManager.WriteBackOutcome | src/lib/services/storage/storageManager.ts:110-125 | the write-back never touches the excluded record's key nor a key whose write the browser refuses (the error is caught) and, with records under their own keys, equals the cleaned store |
| StorageManager.CleanupOldVersions | src/lib/services/storage/storageManager.ts:82-129 | outside the browser nothing changes; in the browser the visited records are exactly the candidates, the store is their write-back, the excluded record and every refused key are untouched, and the result is the cleaned store |
| StorageManager.CleanedRecord | src/lib/services/storage/storageManager.ts:110-123 | after the cleanup each other record reads back with only its versions cut, to at most five, with the newest version kept, or unchanged when its write was refused |
| StorageManager.CleanedKeepsOthers | src/lib/services/storage/storageManager.ts:91-123 | entries that are not image records, do not parse, are the excluded one, or whose write was refused keep their text |
| StorageManager.CleanedKeepsExcluded | src/lib/services/storage/storageManager.ts:96 | the excluded image's record is never rewritten |
| ImageDatabase.VersionsRoundTrip | src/lib/services/storage/indexedDB.ts:117-119 | converting the version dates to text and back gives the same versions |
| ImageDatabase.DbRoundTrip | src/lib/services/storage/indexedDB.ts:112-120 | a record converted for storage and read back is the same image, dates included |
| ImageDatabase.FromDb | src/lib/services/storage/indexedDB.ts:148-157 | reading a stored record keeps its id, userId and number of versions |
| ImageDatabase.KeepNewest | src/lib/services/storage/indexedDB.ts:269-273 | the versions sorted newest `createdAt` first, cut to the first `maxVersions` (slice semantics for any limit) |
| ImageDatabase.KeepNewestKeepsNewest | src/lib/services/storage/indexedDB.ts:269-273 | with a limit below the count exactly `maxVersions` remain, newest first, all from the old list, and none dropped is newer than one kept |
| ImageDatabase.CleanEntryReadsBack | src/lib/services/storage/indexedDB.ts:264-284 | a record within the limit is left as it was; a longer one reads back as the same image with its versions cut to the newest |
| ImageDatabase.TargetDimensions | src/lib/services/storage/indexedDB.ts:60-72 | sizes within 1024 are kept; otherwise the larger side (the height for a square) becomes 1024, the aspect ratio is kept, and both sides end within 0..1024 |
| ImageDatabase.UserListing | src/lib/services/storage/indexedDB.ts:165-192 | what the `userId` index selects from a store keyed by id is exactly that user's records, each read back under its own id |
| ImageDatabase.ImageDatabase.constructor | src/lib/services/storage/indexedDB.ts:26-50 | a new, empty object store |
| ImageDatabase.ImageDatabase.SaveImage | src/lib/services/storage/indexedDB.ts:104-127 | outside the browser it fails with the server-context error; otherwise `put` overwrites the id's record, which reads back as the image, and no other id changes |
| ImageDatabase.ImageDatabase.GetImage | src/lib/services/storage/indexedDB.ts:132-160 | null exactly when no record has the id; otherwise the stored image with that id |
| ImageDatabase.ImageDatabase.GetUserImages | src/lib/services/storage/indexedDB.ts:165-192 | the user's records, every one of them once, sorted newest `updatedAt` first |
| ImageDatabase.ImageDatabase.DeleteImage | src/lib/services/storage/indexedDB.ts:197-208 | removes exactly the id's record |
| ImageDatabase.ImageDatabase.AddImageVersion | src/lib/services/storage/indexedDB.ts:213-250 | null for an unknown id and the compressor's error as failure, both without writing; otherwise one version with URL `data:image/jpeg;base64,` plus the compressed text is appended, it becomes the image's URL, `updatedAt` equals its `createdAt`, and the record is saved; when the id exists and compression succeeds the call always succeeds with the updated image |
| ImageDatabase.ImageDatabase.CleanupOldVersions | src/lib/services/storage/indexedDB.ts:255-292 | the intended full pass: every record is replaced by its cleaned form and no record is added or removed; the limit defaults to 5. The source as written stops after its first rewrite (see Findings) |
| ImageDatabase.CursorPass | src/lib/services/storage/indexedDB.ts:264-291 | the pass as written: the keys stay, every record is either untouched or cleaned, and at most one record is rewritten |
| ImageDatabase.CursorPassStopsEarly | src/lib/services/storage/indexedDB.ts:276-290 | with two records over the limit, the one the cursor reaches second is left as it was, although cleaning would change it |
| ImageDatabase.CursorPassOneOver | src/lib/services/storage/indexedDB.ts:264-291 | with at most one record over the limit, the pass as written gives the full pass's result |
| UserService.SplitName | src/lib/services/api/user.ts:47-48 | the first name has no space; without a space it is the whole name and the last name is empty; with one, first + " " + last is the name and the split is at the first space |
| UserService.SplitAtFirstSpace | src/lib/services/api/user.ts:47-48 | a name whose first space is at position k splits into the text before and after it |
| UserService.DemoNameSplit | src/lib/services/api/user.ts:113-118 | "Demo User" splits into "Demo" and "User" |
| UserService.NewUser | src/lib/services/api/user.ts:50-58 | id `user-<ms>`, the given email and name, the split names, `createdAt == updatedAt`, and no key |
| UserService.SavedUser | src/lib/services/api/user.ts:17-34 | the store starts with a user only when in the browser and the saved text parses as one |
| UserService.SavedUserReloads | src/lib/services/api/user.ts:61 | a user written under `vide_edit_user` is what the store loads next time |
| UserService.UserStore.constructor | src/lib/services/api/user.ts:17-34 | the store starts with the saved user |
| UserService.UserStore.CreateUser | src/lib/services/api/user.ts:43-67 | outside the browser fails with "Cannot create user in server context"; otherwise the new user is saved under `vide_edit_user`, becomes current and reloads |
| UserService.UserStore.UpdateUserApiKey | src/lib/services/api/user.ts:75-97 | null and no change without a user (or on the server); otherwise the key and update time are set, id, email, name and createdAt are kept, and the user is saved |
| UserService.UserStore.CreateDemoUserIfNeeded | src/lib/services/api/user.ts:113-118 | an existing user is returned unchanged with nothing written; otherwise, in the browser, the demo user, named "Demo" "User", is created, saved under the user key and made current; outside the browser it fails and changes nothing |
| UserService.CreateDemoUserTwice | src/lib/services/api/user.ts:113-118 | creating the demo user is idempotent: once a call has produced a user, a second call returns the same user and writes nothing |
| UserService.UserStore.LogoutUser | src/lib/services/api/user.ts:123-131 | in the browser the user key is removed, the store is emptied, and nothing loads next time |
| UserService.SaveUserApiKey | src/lib/services/api/user.ts:157-170 | an empty key removes `gemini_api_key`; a non-empty accepted key is stored; a refused write reports "Failed to save API key"; after success `hasApiKey` holds exactly for a non-empty key |
| UserService.ClearApiKey | src/lib/services/api/user.ts:187-196 | in the browser `gemini_api_key` is removed; afterwards `hasApiKey` is false |
| GeminiClient.UserApiKey | src/lib/services/api/gemini.ts:34-37 | a key is returned only in the browser, and it is the text stored under `gemini_api_key` |
| GeminiClient.RoleOf | src/lib/services/api/gemini.ts:295 | the role is "user" exactly for user messages; assistant and system messages become "model" |
| GeminiClient.FormatChatHistory | src/lib/services/api/gemini.ts:293-298 | one turn per message in the same order, role "user" for the user's messages and "model" for assistant and system messages, and exactly one text part holding the message text (images are dropped) |
| GeminiClient.FormatAppend | src/lib/services/api/gemini.ts:293-298 | formatting distributes over concatenation of transcripts |
| GeminiClient.EventsMatchSplit | src/lib/services/api/gemini.ts:92-103 | the text callbacks carry exactly the collected texts and the image callbacks the collected images, in part order, with no completion among them |
| GeminiClient.GenerateContent | src/lib/services/api/gemini.ts:61-109 | a missing or empty key fails before any request; otherwise it sends the prompt to the image model, returns the reply's split, and calls one callback per collected part and then completion once |
| GeminiClient.EditImage | src/lib/services/api/gemini.ts:165-220 | a missing key fails before any request; otherwise the JPEG picture then the instructions are sent; a reply without candidates fails with "No content was generated…"; otherwise the reply's split is returned |
| GeminiClient.ContinueImageEditing | src/lib/services/api/gemini.ts:229-285 | a missing key fails before any request; otherwise a chat turn with the given history is sent and the reply's split returned |
| GeminiProtocol.SplitAppend | src/lib/services/api/gemini.ts:206-213 | the text and image lists follow concatenation of parts, so each keeps the relative order of the parts |
| GeminiProtocol.SplitMembers | src/lib/services/api/gemini.ts:206-213 | a text is collected exactly when some part has it as non-empty text; an image exactly when some part without text has it as inline data |
| GeminiProtocol.SplitCounts | src/lib/services/api/gemini.ts:271-278 | each part lands in at most one list, and no collected text is empty |
| GeminiProtocol.Partition | src/lib/services/api/gemini.ts:206-213 | the loop computes the texts and images of the parts |
| GeminiProtocol.AggregateAddsAtMostOne | src/routes/api/gemini/+server.ts:68-71 | the aggregate text adds at most one entry, after the others, never a duplicate, and a non-empty aggregate is present afterwards |
| ContinuousEditRoute.HistoryPart | src/routes/api/gemini/continuous-edit/+server.ts:97-109 | a text part keeps only its text, an inline-data part only its inline data, and any other part is kept as it is |
| ContinuousEditRoute.HistoryParts | src/routes/api/gemini/continuous-edit/+server.ts:97-109 | one recorded part per reply part, in order |
| ContinuousEditRoute.HistoryPartsKeepSplit | src/routes/api/gemini/continuous-edit/+server.ts:97-109 | the recorded model turn has the same texts and images as the answer |
| ContinuousEditRoute.UpdatedHistory | src/routes/api/gemini/continuous-edit/+server.ts:89-111 | two turns longer than the history, which stays as a prefix; then a user turn with the prompt as its one text part, then the model turn |
| ContinuousEditRoute.Post | src/routes/api/gemini/continuous-edit/+server.ts:10-128 | a missing key gives 400 before the history is checked; a missing, non-array or empty history gives 400; a thrown error gives 500 with its message; otherwise the split, the de-duplicated aggregate and the updated history |
| GenerationRoute.Post | src/routes/api/gemini/+server.ts:5-84 | a missing key gives 400 "API key is required"; a thrown error gives 500 with its message; otherwise a body of exactly the split texts (plus the de-duplicated aggregate) and images |
| ImageProcessing.Fit | src/lib/services/api/image.ts:50-58 | one clamp step: a side within its limit leaves both unchanged; otherwise it ends exactly at the limit, the other side shrinks, and width/height is kept |
| ImageProcessing.Thumbnail | src/lib/services/api/image.ts:47-58 | an image within both limits keeps its size; otherwise the result fits both limits, keeps the aspect ratio, and has its width at the width limit or its height at the height limit |
| ImageProcessing.AspectComposes | src/lib/services/api/image.ts:50-58 | two ratio-keeping steps keep the ratio |
| ImageProcessing.DefaultThumbnailBounds | src/lib/services/api/image.ts:39-40 | with the defaults the thumbnail fits 400×300 |
| ImageProcessing.BlendBetween | src/lib/services/api/image.ts:164-166 | intensity 0 keeps a channel, 1 gives the target, and any intensity in between lands between the two (`Between`) |
| ImageProcessing.Filtered | src/lib/services/api/image.ts:155-167 | the buffer keeps its length and every alpha entry |
| ImageProcessing.FilteredAtZero | src/lib/services/api/image.ts:164-166 | at intensity 0 every filter leaves the buffer unchanged |
| ImageProcessing.InvertAtFull | src/lib/services/api/image.ts:217-219 | invert at intensity 1 maps each colour entry x to 255 − x |
| ImageProcessing.InvertTwice | src/lib/services/api/image.ts:215-220 | full inversion twice restores the buffer |
| ImageProcessing.GrayscaleTwice | src/lib/services/api/image.ts:155-167 | full grayscale is idempotent |
| ImageProcessing.GrayPixel | src/lib/services/api/image.ts:161-166 | after full grayscale a pixel's three colour entries equal 0.3r + 0.59g + 0.11b of its original channels |
| ImageProcessing.FilteredInRange | src/lib/services/api/image.ts:155-167 | grayscale and invert at an intensity in [0, 1] keep every entry within 0..255 |
| ImageProcessing.ApplyGrayscale | src/lib/services/api/image.ts:146-170 | the in-place loop leaves the buffer equal to the grayscale filter of the old one |
| ImageProcessing.ApplySepia | src/lib/services/api/image.ts:175-201 | the in-place loop leaves the buffer equal to the sepia filter of the old one |
| ImageProcessing.ApplyInvert | src/lib/services/api/image.ts:206-223 | the in-place loop leaves the buffer equal to the invert filter of the old one |
| JsonCodec.ImageJsonRoundTrip | src/lib/services/storage/images.ts:191-218 | an image written with `JSON.stringify` parses back to the same image, dates and optional fields included |
| JsonCodec.UserJsonRoundTrip | src/lib/services/api/user.ts:61 | a user written as JSON parses back to the same user |
| Text.DateRoundTrip | src/lib/services/storage/images.ts:212-217 | a date written as text reads back as the same instant |
| Collections.SortDesc | src/lib/services/storage/images.ts:151 | the numeric newest-first sort gives a descending permutation of its input |
| Collections.CollectSorted | src/lib/services/storage/images.ts:123-151 | scanning every key and sorting gives exactly the accepted values, newest first, each occurring as often as there are keys whose entry selects it |

## Left out

- Canvas, `Image` decoding and JPEG encoding are not modelled. This covers:
  - `compressImage` in `storageManager.ts` and in `indexedDB.ts`; in the IndexedDB path the compressor's output or error is an input;
  - `toDataURL`, `getImageDimensions`;
  - the canvas drawing in `createThumbnail` and `applyFilter`.
- `applyBlur` is not modelled: it only sets a canvas filter.
- `Uint8ClampedArray` rounding and clamping, and floating point, are not modelled. Channels and sizes are exact reals, so sepia can leave 0..255 here, where the browser would clamp.
- The network and the Gemini SDK are not modelled. This covers:
  - `generateImage` (a raw `fetch`), `validateApiKey` and `fileToBase64`;
  - `from-google-ai-studio.js`.
  - A reply is an input: its candidates and `response.text()`, or the error the SDK throws.
  - A `Part` carries only `text` and `inlineData`.
- `editImage` reads `selectedModel` from the UI store, which has no such field. The model name is therefore an input that may be undefined.
- IndexedDB plumbing is not modelled: `initDB`, transactions and request callbacks. The cursor's key order is the `order` argument of `ImageDatabase.CursorPass`, not a model of IndexedDB's key comparison.
- Timers, `crypto.randomUUID` and `new Date()` are inputs.
  - Toast auto-removal after its duration is not modelled.
  - Ids from millisecond timestamps can collide, and the model does not assume they are fresh.
- A `Date` is written as the decimal text of its millisecond count, not as ISO-8601 calendar text. Text that is not a date is treated as an unreadable record; the source would build an Invalid Date instead.
- `JSON.stringify`/`JSON.parse` are modelled for the exact layout the services write:
  - members in object-literal order;
  - no whitespace;
  - only `"` and `\` escaped.

  Other JSON text, and records with missing fields, count as unreadable.
- The IndexedDB `DBImage.responseText` field is not part of the stored record.
- Console logging is not modelled, nor are exceptions thrown with non-`Error` values.
- `gemini.ts`'s own `saveUserApiKey`/`clearApiKey` wrappers around `localStorage` are not modelled. The `user.ts` versions are.
- `uiStore.ts`, `themeStore.ts`, `mockData.ts` and the re-export index files are not part of this model.
- The source has no turn orchestrator and no evict-and-retry commit. The quota check and the two trims are therefore standalone operations.
- ImageProcessing.Thumbnail: requires non-negative limits. The source is only called with its positive defaults or positive sizes.
- ImageProcessing.ApplyGrayscale, ImageProcessing.ApplySepia, ImageProcessing.ApplyInvert: require a buffer length divisible by 4, which `ImageData` always has.
- StorageManager.CleanupOldVersions: it equals `Cleaned` only when every readable image record sits under its own id's key. The service only writes that way (`ImageStorage.WithImageKeepsWellKeyed`). Otherwise the contract states the write-back of the visited records.
- StorageManager.CleanupOldVersions: a record that parses as JSON but is not an image record (no `versions` array, say) is skipped here. In the source, reading `image.versions.length` on it throws outside the inner `try` (storageManager.ts:111). The outer `catch` (storageManager.ts:126-128) then abandons the records not yet visited. The same holds for JSON text that is readable but not in the layout the services write.
- ImageDatabase.ImageDatabase.CleanupOldVersions: states the full pass that the header's "Automatic cleanup of old versions" (indexedDB.ts:8) describes. The source stops after its first rewrite: the `continue()` after the awaited save throws, because the cursor's transaction has committed by then. `ImageDatabase.CursorPass` models that pass as written.
- StorageManager.HasEnoughStorage: the error path is not modelled. It would catch an exception thrown by `localStorage` and return false; here reads never throw.
- UserService.UserStore.CreateUser: the `setItem` of the user record is always accepted, so a quota error thrown there is not modelled. The same holds for UserService.UserStore.UpdateUserApiKey.
- UserService.ClearApiKey: `removeItem` never throws here, so the "Failed to clear API key" path is not modelled.
- ImageStorage.DeleteImage: `removeItem` never throws, so the `false` result in the browser is not reachable here.
- Collections.SortDesc: the sort is stable, but the order of records with equal keys depends on the browser's key order and is not pinned to the source's order.

## Findings

| source | as written | input that shows it | evidently intended | confidence | as-written member | corrected member |
|---|---|---|---|---|---|---|
| src/lib/services/storage/indexedDB.ts:264-291 | the cursor handler awaits `saveImage` before `cursor.continue()`; the cursor's transaction has committed by then, so `continue()` throws and the pass ends after its first rewrite | records "a" and "b", each with 7 versions, and `maxVersions` 5: only "a" is trimmed | every record over the limit is trimmed, as "Automatic cleanup of old versions" (indexedDB.ts:8) says | high; not executed | ImageDatabase.CursorPassStopsEarly | ImageDatabase.ImageDatabase.CleanupOldVersions |
