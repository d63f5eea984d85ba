# Ownership-scoped actions of the multi-app workspace

This project models the server actions behind the workspace's five activities in Dafny: todos, notes, the photo drive, food photos with reviews, and saved Pokemon with reviews. It also models the account actions, the AI suggestions, the route guard and the client-side pieces that feed these actions: the todo row editor, the todo search box and the drive's filter bar.

The relational store is a `Database` object with one `map` per table. Its `Valid()` invariant collects what the store enforces and what the actions keep.

The store enforces these:

- every row sits under its own primary key;
- every `userId` names an existing user;
- user emails are unique;
- a review's parent exists.

For five of the tables these keys are assumed rather than declared (see "Tables the actions name" below).

The actions keep these:

- a review's parent belongs to the review's author (`ReviewedByOwner`), because `createFoodReview` and `createPokemonReview` look the parent up among the caller's own rows before inserting;
- a user saves a catalogue Pokemon at most once (`SavedOnce`), because `savePokemon` looks for an existing entry first.

The actions that read or write the store are methods. Each takes the signed-in user as `caller: Option<Id>`. The other actions differ in form:

- `login` and `signup` are methods without a caller (`AuthActions.Login`, `AuthActions.Signup`), since they run before anyone is signed in. `signup` writes the users table.
- `searchPokemon` and `getPokemonSuggestions` read neither the store nor the user, so they are functions without a caller (`PokemonActions.SearchPokemon`, `Suggestions.GetPokemonSuggestions`).

In every action the clock, the generated row id and every external answer are parameters:

- the blob store's success flags;
- the PokeAPI response;
- the language model's text and the JSON parser;
- the identity provider's errors.

Each action's contract covers the following:

- the result for every path, including validation failures, in the first-issue-message form the actions return;
- the new table contents;
- that only the caller's rows change (`OnlyOwnRowsChanged`);
- that `Valid()` is preserved.

The image actions also preserve `Linked`. Every photo and food-photo row points at a stored object, and no two rows share a storage path.

Listings are specified by `Selects` and `SortedBy`. `Selects` means the rows returned are exactly the table's rows that satisfy the where clause, each once. `SortedBy` is the requested order.

## Model

| member | source | states |
|---|---|---|
| Zod.FirstIssueMessage | src/lib/actions/todos.ts:67-70 | the error is the first issue's message, or "Invalid input" when there is none; never empty |
| Zod.LengthIssues | src/lib/actions/todos.ts:13 | a present string fails `min(lo).max(hi)` exactly when its length in UTF-16 code units is outside lo..hi, with the message of the bound it breaks |
| Zod.TitleIssues | src/lib/actions/todos.ts:13 | the title passes iff it is present and 1..255 UTF-16 code units long; a missing field gets the library's expected-string message |
| Zod.MinLengthIssues | src/lib/actions/pokemon.ts:14-15 | `min(lo)` fails exactly for strings of fewer than lo UTF-16 code units, with its message |
| Zod.AstralTitleTooLong | src/lib/actions/todos.ts:13 | a title of 128 characters outside the Basic Multilingual Plane is 256 code units long and is "Title is too long" |
| Zod.AstralMinLength | src/lib/actions/auth.ts:21 | three characters outside the Basic Multilingual Plane are six code units, so they meet `min(6)` |
| Zod.UuidIssues | src/lib/actions/todos.ts:18 | an id fails `z.uuid` exactly when it is not in the library's UUID layout, with the schema's message |
| Zod.UuidIsUuidText | src/lib/db/schema.ts:28 | every id the schemas accept is text the store can read as a `uuid` |
| Zod.UuidHasNoSlash | src/lib/actions/photos.ts:137 | a user id has no '/', so it is exactly the first segment of a storage key |
| Zod.EmailParts | src/lib/actions/auth.ts:14 | an accepted address is exactly its local part, one '@' and its domain |
| Zod.RatingValue | src/lib/actions/food.ts:27 | a rating the pattern accepts denotes a number from 1 to 5 |
| DbSchema.ParsePriority | src/lib/types/todo.ts:1-3 | a text is a priority level iff it is LOW, MEDIUM or HIGH, and then it names that level |
| DbSchema.PriorityRoundTrip | src/lib/types/todo.ts:2 | every level's name reads back as that level |
| DbSchema.WithoutOwner | src/lib/db/schema.ts:29 | the cascade keeps exactly the rows of other users, unchanged |
| DbSchema.WithParentIn | src/lib/actions/food.ts:274 | the review cascade keeps exactly the reviews whose parent survives, unchanged |
| DbSchema.Database.constructor | src/lib/db/schema.ts:13-52 | an empty store satisfies every constraint |
| DbSchema.Database.DeleteUser | src/lib/actions/auth.ts:125 | deleting a user removes them and, by cascade, all their rows and the reviews of removed parents; the constraints still hold |
| DbSchema.OwnerGone | src/lib/db/schema.ts:29 | after the cascade no remaining row refers to the deleted user |
| DbSchema.OrphansGone | src/lib/actions/food.ts:274 | after the review cascade every review's parent exists |
| DbSchema.InsertKeepsValid | src/lib/db/schema.ts:28-29 | inserting a row of an existing user under its own id keeps the table's keys and foreign key valid |
| DbSchema.ReplaceKeepsValid | src/lib/db/schema.ts:28-29 | rewriting a row in place under the same owner keeps the table valid |
| DbSchema.CascadeLeavesNoRows | src/lib/db/schema.ts:44 | no row of the deleted user survives the cascade |
| Text.Trim | src/lib/actions/photos.ts:50 | the trimmed text occurs in the original, has no whitespace at either end, and is empty iff the original is blank |
| Text.TrimRemovesOnlyEnds | src/lib/actions/photos.ts:50 | the trimmed text sits in the original between a blank prefix and a blank suffix, so only the two ends are removed |
| Text.Utf16Length | src/lib/actions/todos.ts:13 | `length` counts between one and two code units per character, and is 0 only for "" |
| Text.Utf16LengthOfPlaneZero | src/lib/actions/todos.ts:13 | text of the Basic Multilingual Plane has one code unit per character |
| Text.Utf16LengthOfAstral | src/lib/actions/todos.ts:13 | text outside that plane has two code units per character |
| Text.TrimIdempotent | src/components/todo/todo-item.tsx:64-71 | trimming twice is trimming once |
| Text.ToLower | src/components/todo/client-search.tsx:13 | lower-casing keeps the length and lowers each letter |
| Text.ToLowerIdempotent | src/lib/actions/pokemon.ts:81 | lower-casing twice is lower-casing once |
| Text.Contains | src/components/todo/client-search.tsx:13 | `includes` holds iff the needle occurs at some offset |
| Text.Split | src/components/drive/photo-filters.tsx:62 | the pieces hold no separator and join back to the input |
| Text.SplitJoin | src/components/drive/photo-filters.tsx:62 | splitting a join of separator-free pieces gives back the pieces |
| Text.LastPiece | src/lib/actions/photos.ts:136 | the extension is the suffix after the last '.', or the whole name when there is none |
| Text.NatToString | src/lib/actions/photos.ts:163 | a size is written as a non-empty string of decimal digits |
| Text.DecimalRoundTrip | src/lib/actions/photos.ts:163 | the written size reads back as the same number |
| Ordering.TextLeTotal | src/lib/actions/photos.ts:59 | any two names are ordered one way or the other |
| Ordering.TextLeTransitive | src/lib/actions/photos.ts:59 | the name order is transitive |
| Ordering.InOrderTransitive | src/lib/actions/photos.ts:58 | ascending and descending order are both transitive |
| Ordering.InOrderTotal | src/lib/actions/photos.ts:58-61 | any two keys are ordered one way or the other, in either direction |
| Ordering.SortBy | src/lib/actions/photos.ts:58-61 | `orderBy` returns a permutation of its rows, sorted by the column in the requested direction |
| Queries.SelectWhere | src/lib/actions/todos.ts:40-43 | the rows returned are exactly the table rows that satisfy the condition, each once |
| Queries.ListWhere | src/lib/actions/todos.ts:40-44 | a listing is a selection sorted by the key in the requested direction |
| Queries.SelectsPermutation | src/lib/actions/photos.ts:61 | reordering a selection leaves the same selection |
| Queries.FindOwned | src/lib/actions/todos.ts:108-116 | the ownership lookup finds a row iff the id names a row of the caller, and returns that row |
| Queries.FindOwnedIsolates | src/lib/actions/todos.ts:111 | the lookup never yields another user's row |
| Queries.Touched | src/lib/actions/todos.ts:124 | an update keeps the row's id, owner and creation time, and stamps `updatedAt` |
| Queries.ListedRowsAreOwned | src/lib/actions/todos.ts:43 | every row listed by owner is a stored row of the caller |
| Like.SearchIsSubstring | src/lib/actions/photos.ts:54 | for search text without '%', '_' or '\', `ILIKE '%q%'` holds iff the lowered name contains the lowered text |
| Like.PercentLiteralPercent | src/lib/actions/photos.ts:54 | for literal text q, the pattern `%q%` matches a name iff q occurs in it |
| Like.PercentMatchesAll | src/lib/actions/photos.ts:54 | a search of "%" matches every name |
| Like.UnderscoreIsWildcard | src/lib/actions/photos.ts:54 | a search of "_" matches every non-empty name, although no name need contain '_' |
| Storage.BlobStore.constructor | src/lib/supabase/storage.ts:6-36 | a store starts with no buckets and no objects |
| Storage.BlobStore.Upload | src/lib/actions/photos.ts:140-150 | an upload without upsert stores the object iff the service answers, the bucket exists, its limits admit the file and the path is free |
| Storage.BlobStore.Remove | src/lib/actions/photos.ts:245-252 | a removal drops the object when the service answers and changes nothing otherwise |
| Storage.GetPhotosBucketName | src/lib/supabase/storage.ts:39-41 | the bucket name is "photos" |
| Storage.EnsurePhotosBucket | src/lib/supabase/storage.ts:6-36 | a listing error throws; an existing bucket is left alone; a missing one is created with the public, 5 MiB, five-type settings, or the call throws |
| Storage.EnsureTwice | src/lib/supabase/storage.ts:17-19 | after one successful call a second one creates nothing and changes nothing |
| Storage.PhotosBucketLimits | src/lib/supabase/storage.ts:21-25 | a file the created bucket admits is at most 5 MiB and has one of the five image types |
| Images.NameIssues | src/lib/actions/photos.ts:14 | a photo name passes iff it is 1..255 UTF-16 code units long |
| Images.RenameIssues | src/lib/actions/photos.ts:17-20 | a rename passes iff the id is a UUID and the name 1..255 code units long; a bad id is reported first |
| Images.Renamed | src/lib/actions/photos.ts:205-211 | a rename changes only the name and `updatedAt`; the object, URL, size and type stay |
| Images.UploadName | src/lib/actions/photos.ts:120 | a missing or empty name falls back to the file's name |
| Images.UploadRejection | src/lib/actions/photos.ts:105-125 | an upload passes the checks iff there is a file, its type starts with "image/", it is at most 5 MiB and its name is valid; failures are reported in that order |
| Images.SizeLimitIsInclusive | src/lib/actions/photos.ts:115-118 | a file of exactly 5 MiB passes the size check and one byte more does not |
| Images.StorageKeyLayout | src/lib/actions/photos.ts:136-137 | the key lies under the owner's prefix, its first segment is the owner and its extension is the file's |
| Images.StorageKeyStamp | src/lib/actions/photos.ts:137 | keys made at different times for the same owner, random text and file differ |
| Images.FreshPathKeepsLinked | src/lib/actions/photos.ts:158-165 | inserting a row for an object just stored at a fresh path keeps every row linked to its own object |
| Images.RemovedPathKeepsLinked | src/lib/actions/photos.ts:245-257 | deleting a row, and its object or not, keeps the other rows linked |
| Images.RenameKeepsLinked | src/lib/actions/photos.ts:205-211 | a rename keeps every row linked |
| Images.CascadeKeepsLinked | src/lib/actions/auth.ts:125 | the account cascade only drops image rows, so the rest stay linked |
| Images.ReadyBuckets | src/lib/supabase/storage.ts:17-33 | after a successful check the photos bucket exists, with its old settings if it existed and the bucket settings otherwise; no other bucket changes |
| Images.StoreFile | src/lib/actions/photos.ts:127-150 | the storage half of an upload: a bucket failure or a refused upload leaves the objects as they were; otherwise the object is stored under the new key |
| Images.UploadedFields | src/lib/actions/photos.ts:158-165 | the inserted row carries the given name, the key, the public URL of the key, the file's type and its size as decimal text that reads back as the size |
| Images.BucketRefusesBmp | src/lib/supabase/storage.ts:24 | an image/bmp file passes the action's check but not the bucket's type list |
| Gallery.DefaultListing | src/lib/actions/photos.ts:44 | without options the listing is the owner's rows, newest first |
| Gallery.SearchKeeps | src/lib/actions/photos.ts:50-55 | with a literal search a row is listed iff it is the caller's and its lowered name contains the lowered, trimmed search |
| Gallery.ListSearchable | src/lib/actions/photos.ts:44-61 | the listing selects the caller's rows that match the search, ordered by the chosen column and direction |
| Reviews.ReviewBodyIssues | src/lib/actions/food.ts:26-27 | a review passes iff its content is 1..1000 UTF-16 code units long and its rating is one digit from 1 to 5; the content is reported first |
| Reviews.CreateReviewIssues | src/lib/actions/food.ts:24-28 | a new review passes iff its parent id is a UUID and its body passes; the parent id is reported first |
| Reviews.UpdateReviewIssues | src/lib/actions/food.ts:30-34 | an edit passes iff the review id is a UUID and the body passes |
| Reviews.AcceptedRatingInRange | src/lib/actions/food.ts:27 | an accepted rating is one of "1" to "5" |
| Reviews.Revised | src/lib/actions/food.ts:398-405 | an edit replaces content and rating and stamps `updatedAt`; parent, author and creation time stay |
| Reviews.ReviseIdempotent | src/lib/actions/food.ts:398-405 | the same edit applied twice equals one |
| Reviews.ReviewWriteKeepsParents | src/lib/actions/food.ts:353-358 | a review written by the parent's owner keeps parents present and reviews written by their parent's owner |
| Reviews.ReviewRemovalKeepsParents | src/lib/actions/food.ts:434-436 | removing a review keeps the others' parents |
| Reviews.ParentRemovalKeepsReviews | src/lib/actions/food.ts:274 | removing a parent drops exactly its reviews and keeps the others valid |
| Reviews.ListedReviewsAreOwn | src/lib/actions/food.ts:298-316 | the reviews listed under the caller's parent are all the caller's |
| TodoActions.PriorityIssues | src/lib/actions/todos.ts:14 | a priority passes iff it is a level, with the enum's message otherwise |
| TodoActions.SubmittedPriority | src/lib/actions/todos.ts:62 | a missing or empty priority field becomes MEDIUM |
| TodoActions.ParseCreateTodo | src/lib/actions/todos.ts:12-15 | a form parses iff the title is 1..255 long and the priority a level; the title's issue comes first |
| TodoActions.DefaultPriority | src/lib/actions/todos.ts:14 | a todo created without a priority is MEDIUM |
| TodoActions.UpdateTodoIssues | src/lib/actions/todos.ts:17-22 | an update passes iff the id is a UUID and every supplied field passes; a bad id is reported first |
| TodoActions.PatchTouchesOnlySupplied | src/lib/actions/todos.ts:120-125 | a field left out of the update keeps its value, a supplied one takes it |
| TodoActions.PatchIdempotent | src/lib/actions/todos.ts:120-125 | the same update applied twice equals one |
| TodoActions.ToggleTwice | src/lib/actions/todos.ts:158 | a toggle flips `completed`, and two toggles restore the row's fields |
| TodoActions.GetTodos | src/lib/actions/todos.ts:32-50 | the caller's todos exactly, oldest first; no user, no list |
| TodoActions.NoTodosListsNothing | src/lib/actions/todos.ts:40-44 | a user without todos gets an empty list |
| TodoActions.CreateTodo | src/lib/actions/todos.ts:53-86 | a valid form inserts one uncompleted todo of the caller; an invalid one reports its first issue; a failed insert leaves the table |
| TodoActions.UpdateTodo | src/lib/actions/todos.ts:89-133 | only the caller's todo changes, and only in the supplied fields; a foreign or missing id is "Todo not found" |
| TodoActions.ToggleTodo | src/lib/actions/todos.ts:136-168 | the caller's todo has `completed` negated; an id the store cannot read fails with the catch message |
| TodoActions.DeleteTodo | src/lib/actions/todos.ts:171-192 | the caller's todo goes if it exists; the action succeeds either way and never touches another user's row |
| NoteActions.SubmittedContent | src/lib/actions/notes.ts:85 | missing content becomes empty |
| NoteActions.ParseCreateNote | src/lib/actions/notes.ts:11-14 | a note form parses iff its title is 1..255 long |
| NoteActions.UpdateNoteIssues | src/lib/actions/notes.ts:16-20 | an update passes iff the id is a UUID and a supplied title is 1..255 long |
| NoteActions.NotePatchTouchesOnlySupplied | src/lib/actions/notes.ts:141-145 | a field left out keeps its value; the same patch twice equals once |
| NoteActions.GetNotes | src/lib/actions/notes.ts:30-48 | the caller's notes exactly, most recently updated first |
| NoteActions.GetNoteById | src/lib/actions/notes.ts:51-73 | the note is found iff it is the caller's; an id the store cannot read is the catch message |
| NoteActions.CreateNote | src/lib/actions/notes.ts:76-107 | a valid form inserts one note of the caller; a failed insert leaves the table |
| NoteActions.UpdateNote | src/lib/actions/notes.ts:110-153 | only the caller's note changes, and only in the supplied fields |
| NoteActions.DeleteNote | src/lib/actions/notes.ts:156-174 | the caller's note goes if it exists; the action succeeds either way |
| PhotoActions.GetPhotos | src/lib/actions/photos.ts:33-67 | the caller's photos that match the search, in the chosen order |
| PhotoActions.GetPhotoById | src/lib/actions/photos.ts:70-92 | the photo is found iff it is the caller's |
| PhotoActions.UploadPhoto | src/lib/actions/photos.ts:95-173 | after the checks the object is stored under the caller's prefix and one row is inserted; each failing step has its own message; the buckets are left alone when the bucket check fails and are the ready buckets otherwise; the objects are unchanged unless the upload is accepted; an object stored before a failed insert stays |
| PhotoActions.UpdatePhoto | src/lib/actions/photos.ts:176-218 | only the caller's photo is renamed; its object stays linked |
| PhotoActions.DeletePhoto | src/lib/actions/photos.ts:221-264 | the caller's photo row goes even when removing its object fails |
| FoodActions.GetFoodPhotos | src/lib/actions/food.ts:53-87 | the caller's food photos that match the search, in the chosen order |
| FoodActions.GetFoodPhotoById | src/lib/actions/food.ts:90-112 | the food photo is found iff it is the caller's |
| FoodActions.UploadFoodPhoto | src/lib/actions/food.ts:115-193 | as an upload of the drive, under the caller's "food/" folder and with the food-photo messages, with the same buckets and objects on every path |
| FoodActions.UpdateFoodPhoto | src/lib/actions/food.ts:196-238 | only the caller's food photo is renamed |
| FoodActions.DeleteFoodPhoto | src/lib/actions/food.ts:241-284 | the caller's food photo goes with its reviews, even when removing its object fails |
| FoodActions.GetFoodReviews | src/lib/actions/food.ts:291-320 | the reviews of the caller's photo exactly, newest first, all written by the caller |
| FoodActions.CreateFoodReview | src/lib/actions/food.ts:323-366 | a valid review on the caller's photo is inserted; another user's photo is "Photo not found" |
| FoodActions.UpdateFoodReview | src/lib/actions/food.ts:369-412 | only the caller's review changes, in content and rating |
| FoodActions.DeleteFoodReview | src/lib/actions/food.ts:415-443 | only the caller's review goes |
| PokemonActions.ReadResponse | src/lib/actions/pokemon.ts:85-96 | a search succeeds iff the answer is 2xx with a body; a 404 is "Pokemon not found"; every other failure is "Failed to search Pokemon" |
| PokemonActions.SearchPokemon | src/lib/actions/pokemon.ts:70-97 | a blank name is refused without a request; otherwise the answer for the normalised URL decides |
| PokemonActions.SearchUrlNormalises | src/lib/actions/pokemon.ts:81 | names that differ only in case ask for the same URL, and a non-blank name never asks for the bare list URL |
| PokemonActions.GetSavedPokemon | src/lib/actions/pokemon.ts:104-138 | the caller's saved Pokemon that match the search, in the chosen order |
| PokemonActions.GetSavedPokemonById | src/lib/actions/pokemon.ts:141-163 | the entry is found iff it is the caller's |
| PokemonActions.SavePokemonIssues | src/lib/actions/pokemon.ts:13-17 | a save passes iff the catalogue id and name are non-empty and the image URL is a URL, reported in that order |
| PokemonActions.SavePokemon | src/lib/actions/pokemon.ts:166-215 | saving an entry the caller already has returns that entry's id and writes nothing; otherwise one row is inserted and its id returned |
| PokemonActions.NoEntrySelected | src/lib/actions/pokemon.ts:182-193 | when the caller has the entry, the lookup finds it |
| PokemonActions.FirstEntryIsTheEntry | src/lib/actions/pokemon.ts:193-195 | the id returned for a repeat save is the only entry of that catalogue id for the caller |
| PokemonActions.DeletePokemon | src/lib/actions/pokemon.ts:218-245 | the caller's entry goes with its reviews |
| PokemonActions.GetPokemonReviews | src/lib/actions/pokemon.ts:252-281 | the reviews of the caller's entry exactly, newest first, all written by the caller |
| PokemonActions.CreatePokemonReview | src/lib/actions/pokemon.ts:284-327 | a valid review on the caller's entry is inserted |
| PokemonActions.UpdatePokemonReview | src/lib/actions/pokemon.ts:330-373 | only the caller's review changes |
| PokemonActions.DeletePokemonReview | src/lib/actions/pokemon.ts:376-404 | only the caller's review goes |
| AuthActions.EmailIssues | src/lib/actions/auth.ts:14 | the email passes iff it is present and an address; otherwise the schema's message |
| AuthActions.RequiredMinIssues | src/lib/actions/auth.ts:15 | a field passes iff it is present and at least the bound in UTF-16 code units; a missing one gets the library's message |
| AuthActions.LoginIssues | src/lib/actions/auth.ts:13-16 | a login passes iff the email is an address and the password non-empty |
| AuthActions.SignupIssues | src/lib/actions/auth.ts:18-22 | a signup passes iff the name is non-empty, the email an address and the password at least 6 UTF-16 code units |
| AuthActions.FieldErrorKeys | src/lib/actions/auth.ts:42-49 | the field errors hold an entry for exactly the fields some issue is about |
| AuthActions.FirstMessageWins | src/lib/actions/auth.ts:42-49 | a field's first issue with a message keeps that message; later ones are dropped |
| AuthActions.CollectFieldErrors | src/lib/actions/auth.ts:72-79 | the loop builds the first-message-per-field record |
| AuthActions.Login | src/lib/actions/auth.ts:33-61 | a rejected form gives only field errors, whatever the provider would say; the provider's error is returned verbatim; otherwise the user is sent home |
| AuthActions.Signup | src/lib/actions/auth.ts:63-106 | a users row with the provider's id, the email and the name is inserted only when the provider returns a user; a taken id or address makes the action throw |
| AuthActions.NewUserKeepsValid | src/lib/db/schema.ts:13-15 | a user with a fresh id and address keeps every table valid |
| AuthActions.DeleteAccount | src/lib/actions/auth.ts:115-143 | the user's rows are deleted first, by cascade; a provider error then is returned without restoring them |
| Suggestions.PromptFor | src/lib/actions/ai.ts:26-34 | the interest prompt is used iff a non-empty context is given |
| Suggestions.FirstIndex | src/lib/actions/ai.ts:41 | finds the first occurrence of a character, or none when it is absent |
| Suggestions.LastIndex | src/lib/actions/ai.ts:41 | finds the last occurrence of a character, or none when it is absent |
| Suggestions.JsonSpanIsLeftmostLongest | src/lib/actions/ai.ts:41 | the extracted span exists iff some '[' precedes a ']', and it is the leftmost, longest such substring, as the greedy regular expression finds |
| Suggestions.TakeAtMost | src/lib/actions/ai.ts:54 | `slice(0, 5)` is the prefix of exactly min(5, length) elements |
| Suggestions.GetPokemonSuggestions | src/lib/actions/ai.ts:12-64 | without a key the result is "AI service not configured" and the model is not consulted; a reply with no bracketed span is "Failed to parse AI response"; a model that throws or a span the parser rejects is "Failed to get AI suggestions"; success iff the model answers, a span exists and it parses, and then the suggestions are the first min(5, n) of the n parsed |
| Suggestions.SpanFromWrappedReply | src/lib/actions/ai.ts:41-50 | an array wrapped in text without brackets reaches the parser unchanged |
| RouteGuard.AnyPrefix | src/lib/supabase/middleware.ts:42-44 | `some(startsWith)` holds iff the path starts with one of the routes |
| RouteGuard.UpdateSession | src/lib/supabase/middleware.ts:41-53 | a request is redirected to "/" iff its path is protected and there is no user; everything else passes through |
| RouteGuard.ExtensionStaysProtected | src/lib/supabase/middleware.ts:42-44 | the match is by prefix: any extension of a protected path is protected |
| RouteGuard.PrefixMatchExamples | src/lib/supabase/middleware.ts:41-44 | "/todos" and "/foodie" are protected; "/" and "/login" are not |
| TodoItemView.GetPriorityConfig | src/components/todo/todo-item.tsx:26-31 | a stored level gets its own entry; a missing or unknown value gets MEDIUM's |
| TodoItemView.StoredLevelShowsItsBadge | src/components/todo/todo-item.tsx:19-23 | each level shows its own badge, and different levels show different captions |
| TodoItemView.TodoItem.constructor | src/components/todo/todo-item.tsx:38-41 | the editor starts closed, with the stored title and no error |
| TodoItemView.TodoItem.StartEdit | src/components/todo/todo-item.tsx:184 | the edit button opens the editor |
| TodoItemView.TodoItem.EditTitle | src/components/todo/todo-item.tsx:111 | typing replaces the title being edited |
| TodoItemView.TodoItem.SaveEdit | src/components/todo/todo-item.tsx:63-79 | a blank title is refused locally with "Title is required" and no call; otherwise the trimmed title goes to updateTodo, and the editor closes only on success |
| TodoItemView.TodoItem.CancelEdit | src/components/todo/todo-item.tsx:81-85 | cancelling restores the stored title, leaves edit mode and clears the error |
| TodoItemView.SentTitleIsStable | src/components/todo/todo-item.tsx:64-70 | the title sent is already trimmed and never blank |
| TodoSearch.FilterTodos | src/components/todo/client-search.tsx:13 | a todo is kept iff its lowered title contains the lowered query; the result is never longer |
| TodoSearch.FilterKeepsOrder | src/components/todo/client-search.tsx:13 | the kept todos are a subsequence of the list, in its order |
| TodoSearch.EmptyQueryKeepsAll | src/components/todo/client-search.tsx:13 | an empty query keeps every todo |
| TodoSearch.FilterIdempotent | src/components/todo/client-search.tsx:13 | filtering the result again with the same query changes nothing |
| DriveFilters.GetAfterDelete | src/components/drive/photo-filters.tsx:38 | after `delete` the name is absent and every other name reads as before |
| DriveFilters.GetAfterSet | src/components/drive/photo-filters.tsx:40 | after `set` the name reads as the value and every other name reads as before |
| DriveFilters.UpdateFilters | src/components/drive/photo-filters.tsx:32-42 | the loop applies the updates in order to a copy of the current parameters |
| DriveFilters.UnnamedKeysKept | src/components/drive/photo-filters.tsx:35-42 | a name no update mentions keeps its value |
| DriveFilters.NamedKeysUpdated | src/components/drive/photo-filters.tsx:36-42 | a named key is removed for null or "" and set to the value otherwise |
| DriveFilters.SubmittedSearch | src/components/drive/photo-filters.tsx:53 | a submit sends the trimmed text, or removes the key when it is blank |
| DriveFilters.SortUpdates | src/components/drive/photo-filters.tsx:61-64 | a sort choice updates exactly sortBy and sortOrder |
| DriveFilters.SortRoundTrip | src/components/drive/photo-filters.tsx:61-66 | choosing the shown sort value writes that same field and order back |
| DriveFilters.SortOptionsRoundTrip | src/components/drive/photo-filters.tsx:101-104 | each of the four menu values is a field and an order joined by '-' |
| DriveFilters.FilterBar.constructor | src/components/drive/photo-filters.tsx:26-29 | the search box starts with the page's search and the URL's parameters are those of the page |
| DriveFilters.FilterBar.Type | src/components/drive/photo-filters.tsx:76 | typing replaces the search box text without touching the URL |
| DriveFilters.FilterBar.SubmitSearch | src/components/drive/photo-filters.tsx:51-54 | the URL's search becomes the trimmed text or goes; other keys stay |
| DriveFilters.FilterBar.ClearSearch | src/components/drive/photo-filters.tsx:56-59 | the box is emptied and the URL loses its search; other keys stay |
| DriveFilters.FilterBar.ChangeSort | src/components/drive/photo-filters.tsx:61-64 | the URL takes both halves of the chosen value; other keys stay |
| DriveFilters.Keyed | src/components/drive/photo-filters.tsx:35-42 | with distinct names each named key reads as its update says and every other key as before |

## Behaviour that follows the code

- **Photo, food-photo and saved-Pokemon search.** The search is `ILIKE '%text%'`, not a plain substring test. '%' and '_' in the search text act as wildcards (`Like.UnderscoreIsWildcard`). The listing equals a case-insensitive substring test only for text without '%', '_' or '\' (`Gallery.SearchKeeps`).
- **Review content.** It is not trimmed before its length check, so content of only spaces is accepted.
- **AI suggestions.** They come from one model only, with no fallback provider. The "at most five" comes from `slice(0, 5)`.
- **Todo priority.** The `priority` column is read and written by the todo actions but missing from the `todos` table definition in `src/lib/db/schema.ts`. The model gives todos a priority field.
- **Tables the actions name.** `notes`, `foodPhotos`, `foodReviews`, `pokemon` and `pokemonReviews` are not defined in `src/lib/db/schema.ts`. Their columns follow what the actions insert and read. The model assumes that their `userId` references `users.id` with ON DELETE CASCADE, as the `todos` and `photos` tables in that file do (`src/lib/db/schema.ts:29` and `:44`). `TableValid` in `Valid()`, `WithoutOwner` in `DeleteUser` and the contract of `DeleteAccount` rest on that assumption.
- **Review cascade.** The cascade from a food photo or saved Pokemon to its reviews is taken as a store rule, as the comments at `src/lib/actions/food.ts:240` and `:274` say.
- **Saved Pokemon.** "At most one entry per user and catalogue id" (`SavedOnce`) is kept by `savePokemon`'s lookup, not by a unique constraint.
- **Unvalidated ids.** Some actions pass an id to the store without a schema: toggle, the by-id lookups, the deletes and the review listing. Text the store cannot read as a `uuid` makes the query throw there, and the action returns its catch message. `DbSchema.IsUuidText` models which text the store reads.
- **Email messages.** `z.email(message)` reports a missing email field with the schema's own message. A missing string field without a custom type message gets the library's "expected string" message.
- **Empty messages.** The field-error loop skips a field whose stored message is empty ("falsy"), so a later message then replaces it.
- **Orphaned objects.** An upload stores the object before it inserts the row. A failed insert leaves the object in the bucket, and so does deleting an account, whose cascade removes image rows but no objects.
- **Sort choice without '-'.** `handleSortChange` on such a value would write the text "undefined" as sortOrder. The menu offers no such value.

## Left out

- Sessions, cookies and the identity provider are left out. The signed-in user is the `caller` parameter. The provider's answers to sign-in, sign-up and admin deletion are parameters too.
- `logout` is left out: it only signs out and redirects, and sessions are not modelled.
- `getAuthenticatedUser` is left out: its result is the `caller` parameter.
- `revalidatePath`, `redirect` and `router.push` are not recorded. A successful login, signup or account deletion is the result `Redirected("/")` or `Success`, and the filter bar's URL is its parameter list. Percent-encoding of the URL is not modelled.
- Failures of the store itself are not modelled: lost connections, timeouts and other store errors. The catch paths the model does take are insert failures on a missing user or a taken key, and id text that is not a `uuid`.
- The moment between the ownership lookup and the following update or delete is not modelled: each action is one atomic step.
- Date.now(), Math.random(), the generated row ids and the public URL of a storage path are parameters.
- GetPokemonSuggestions: JSON.parse is a parameter. Any array it returns is taken as suggestions, whatever its elements hold.
- PokemonActions.ReadResponse: the body of a 2xx response is a parameter (parsed or not). Caching of the request is not modelled.
- Zod.IsEmail and Zod.IsUrl: the library's address pattern and the URL parser are approximated. IsEmail uses ASCII local parts and dot-separated domain labels. IsUrl requires a scheme and, for special schemes, a host.
- Text.ToLower: it lowers ASCII letters only, while `toLowerCase` and `ILIKE` follow Unicode case mapping.
- Ordering.TextLe: text columns sort by code point, not by the database collation.
- The handlers that forward a click to an action without checks of their own are not modelled: the todo row's toggle, delete and priority change.
- Rendering, layout and styling are not modelled. The review forms' client-side guards are left out too, since they repeat the server schemas.
- `formatFileSize` is left out because it formats with floating point.
