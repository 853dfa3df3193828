# Movie catalog client: verified model of its page logic

The client is a small single-page application over a REST backend of movie
records (`_id`, `title`, `author`, `genre`, optional `synopsis` and
`picture`). This project models the three pages that carry logic of their own
and proves what they promise:

- **Catalog** (`Home`, `home.dfy`): the grid shows the fetched list filtered by
  a case-insensitive title search and by an exact genre and an exact author
  selection, where an empty selection accepts everything. The genre and author
  selectors offer the distinct values of the fetched list in the order in which
  each value first occurs. Cards show the picture or a placeholder image, and
  the first 100 code points of the synopsis followed by an ellipsis.
- **Detail page** (`MovieDetail`, `movie_detail.dfy`): a class `DetailPage`
  with the page's three fields `movie`, `loading` and `error`. The mount fetch
  and the delete action are methods that take the settled outcome of the
  request as an input. A change of route id on the mounted page replaces the
  id and keeps the three fields, so the refetch starts from the old state. The
  render choice is a function with a fixed precedence:
  loading, then error, then not found, then the movie. The edit and back buttons
  are read-only methods that return their navigation target.
- **Edit form** (`UpdateMovie`, `update_movie.dfy`): a class `EditForm` with
  the five text fields. They start empty and are prefilled from the fetched
  record; a falsy synopsis or picture becomes `""`. One setter per field stands
  for the `onChange` handlers. `Submit` packs the fields into a five-field draft
  with no identifier. The browser runs the handler only when the `required`
  inputs (title, author, genre) are non-empty; then the draft is sent as a PUT
  to the route's movie, and the navigation target is built from the `_id` of
  the response. The cancel button has no `type` attribute, so it is a submit
  button too: besides going back in history it submits the form, and the edits
  are saved (`Cancel`).

Shared pieces sit in `movies.dfy` (`Movies`: the record, the truthiness of an
optional string, the image fallback, routes, requests, and request outcomes)
and in `builtins.dfy` (`Builtins`: `toLowerCase` on ASCII letters,
`String.includes`, the insertion order of `Array.from(new Set(...))`, and
subsequences).

The backend is not part of this model. `UpdateMovie.WithId` states an
assumption about it: a PUT replaces the stored record by the draft under the
same identifier, with the synopsis and picture stored as sent.
`UpdateMovie.PrefillAfterSave` and `UpdateMovie.SaveUnedited` are stated about
that assumed record.

Network calls are not performed. A request is a record (verb, path, body). How
a request settles is an input `Reply`: either it threw, with the error's
message (a transport failure or a body that does not parse), or a response
arrived with its `ok` flag and its parsed body. Navigation is the returned route
string.

In these places the code behaves differently from what its screens suggest;
the model follows the code:

- The detail page shows an error only when `error` is truthy. A thrown error
  with an empty message therefore falls through to the not-found or loaded view.
  A not-ok fetch shows the error view. Not found is shown when an ok response
  carries a JSON `null` body.
- The edit form does not look at the `ok` flag, neither on its fetch nor on its
  submit. After the PUT it navigates to `"/" + data._id` whatever the status. A
  body without `_id` therefore leads to `"/undefined"`. A JSON `null` body or a
  rejected request stops the handler before it navigates.
- The edit form's cancel button also submits the form, so cancelling saves
  the edits whenever the required fields are filled.
- When the edit form's route id changes, the refetch prefills the fields
  again; if it is rejected, the previous movie's values stay in the fields and
  a submit writes them onto the new id.
- When the detail page's route id changes, `loading` is not set back to true
  and `error` is not cleared: the old movie stays on screen during the
  refetch, and an earlier error is still shown after a successful refetch.

## Model

| member | source | states |
|---|---|---|
| `Home.Matches` | src/pages/Home.tsx:38-40 | with an empty search and no selections every movie matches; a movie matches a search for its own title |
| `Builtins.Lower` | src/pages/Home.tsx:38 | `toLowerCase` keeps the length and lowers each character (ASCII letters only) |
| `Builtins.Includes` | src/pages/Home.tsx:38 | `includes`: the empty string and every prefix are included; an included needle is no longer than the haystack |
| `Movies.OrElse` | src/pages/UpdateMovie.tsx:31-32 | `s \|\| fallback` on an optional string: the value when truthy, the fallback otherwise, never empty with a non-empty fallback |
| `Home.FilteredMovies` | src/pages/Home.tsx:37-41 | every shown movie meets all three criteria; with a genre or author selection, every shown movie has exactly that genre or author; never longer than the fetched list |
| `Home.FilteredIsSubsequence` | src/pages/Home.tsx:37-41 | the shown list is a subsequence of the fetched list: relative order kept, no new element |
| `Home.FilteredCounts` | src/pages/Home.tsx:37-41 | each movie is shown as many times as it was fetched if it meets all criteria, and not at all otherwise |
| `Home.FilteredComplete` | src/pages/Home.tsx:37-41 | completeness: a fetched movie that meets all three criteria is shown |
| `Home.FilteredNoCriteria` | src/pages/Home.tsx:37-41 | with an empty search and no selections the whole fetched list is shown |
| `Home.FilteredOwnTitle` | src/pages/Home.tsx:38 | searching for a movie's own title, with no selections, keeps that movie |
| `Home.FilteredConjunction` | src/pages/Home.tsx:37-41 | filtering by all criteria equals filtering by author, then genre, then title |
| `Home.FilteredIntersection` | src/pages/Home.tsx:37-41 | a movie is shown iff it is shown under each single criterion alone |
| `Home.FilteredCaseInsensitive` | src/pages/Home.tsx:38 | lower-casing the search string does not change the result |
| `Builtins.LowerIdempotent` | src/pages/Home.tsx:38 | lower-casing is idempotent |
| `Builtins.IncludesIffOccurs` | src/pages/Home.tsx:38 | `includes` holds iff the needle occurs at some position of the haystack |
| `Builtins.Distinct` | src/pages/Home.tsx:44-45 | the de-duplicated list has no duplicates and holds exactly the values of the input |
| `Builtins.DistinctFirstOccurrenceOrder` | src/pages/Home.tsx:44-45 | the de-duplicated values appear in the order of their first occurrence |
| `Home.UniqueGenres` | src/pages/Home.tsx:44 | genre options have no duplicates and are exactly the genres of the fetched movies |
| `Home.UniqueAuthors` | src/pages/Home.tsx:45 | author options have no duplicates and are exactly the authors of the fetched movies |
| `Home.UniqueGenresOrder` | src/pages/Home.tsx:44 | genre options follow the order in which each genre first occurs in the list |
| `Home.UniqueAuthorsOrder` | src/pages/Home.tsx:45 | author options follow the order in which each author first occurs in the list |
| `Home.GenreOptionSelectable` | src/pages/Home.tsx:44 | selecting any offered genre with an empty search shows at least one movie |
| `Home.AuthorOptionSelectable` | src/pages/Home.tsx:45 | selecting any offered author with an empty search shows at least one movie |
| `Movies.ImageSource` | src/pages/Home.tsx:104 | the image is the picture when truthy and the placeholder otherwise; never empty |
| `Home.CardSynopsis` | src/pages/Home.tsx:112 | the card text is at most the first 100 code points of the synopsis (none when absent) followed by "..." |
| `MovieDetail.DetailPage.constructor` | src/pages/MovieDetail.tsx:15-17 | the page starts loading, with no movie and no error |
| `MovieDetail.AfterFetch` | src/pages/MovieDetail.tsx:41-54 | after the fetch settles loading is false; a failure sets the error and keeps the movie; an ok response stores the body and keeps the error |
| `MovieDetail.DetailPage.RouteChanged` | src/pages/MovieDetail.tsx:41-59 | a new route id on the mounted page replaces the id and keeps `movie`, `loading` and `error` |
| `MovieDetail.StaleErrorAfterRefetch` | src/pages/MovieDetail.tsx:41-59 | after a route change, an earlier error is still shown when the refetch succeeds |
| `MovieDetail.DetailPage.FetchMovie` | src/pages/MovieDetail.tsx:41-54 | sends a GET for the route id, keeps that id, and moves the state as `AfterFetch` says |
| `MovieDetail.Render` | src/pages/MovieDetail.tsx:61-71 | precedence loading, error (when truthy), not found, loaded; each view chosen exactly under its condition |
| `MovieDetail.MountedView` | src/pages/MovieDetail.tsx:41-71 | the first view after the mount fetch, for every outcome |
| `MovieDetail.FetchEndsLoading` | src/pages/MovieDetail.tsx:51-53 | once a fetch settled the loading view is never chosen |
| `MovieDetail.AfterDelete` | src/pages/MovieDetail.tsx:20-37 | after a delete loading is false and the movie kept; anything but an ok response sets the error |
| `MovieDetail.DeleteNavigation` | src/pages/MovieDetail.tsx:28-31 | a delete navigates iff the response is ok, and then to the catalog |
| `MovieDetail.DetailPage.DeleteMovie` | src/pages/MovieDetail.tsx:20-37 | sends a DELETE for the route id, keeps that id, returns the navigation of `DeleteNavigation` and moves the state as `AfterDelete` says |
| `MovieDetail.FailedDeleteShowsError` | src/pages/MovieDetail.tsx:28-36 | a failed delete does not navigate, keeps the movie and shows the error view |
| `MovieDetail.DetailPage.Edit` | src/pages/MovieDetail.tsx:86 | from the loaded view, goes to the edit route of the shown movie's `_id`; changes no state |
| `MovieDetail.DetailPage.Back` | src/pages/MovieDetail.tsx:87 | always goes to the catalog; changes no state |
| `UpdateMovie.EditForm.constructor` | src/pages/UpdateMovie.tsx:15-19 | all five fields start as "" |
| `UpdateMovie.PrefillDraft` | src/pages/UpdateMovie.tsx:28-32 | title, author and genre copied verbatim; synopsis and picture copied when truthy, "" otherwise |
| `UpdateMovie.EditForm.FetchMovie` | src/pages/UpdateMovie.tsx:23-33 | sends a GET for the route id and keeps that id; a parsed record prefills all five fields as `PrefillDraft` says, whatever the status; a rejection or null body leaves them unchanged |
| `UpdateMovie.EditForm.RouteChanged` | src/pages/UpdateMovie.tsx:22-36 | a new route id on the mounted form replaces the id and keeps the five fields |
| `UpdateMovie.SubmitAfterRejectedRefetch` | src/pages/UpdateMovie.tsx:22-66 | after a route change whose refetch is rejected, a submit sends the previous movie's fields as the replacement of the new id |
| `UpdateMovie.PrefillAfterSave` | src/pages/UpdateMovie.tsx:28-32 | prefilling from the record a draft was saved as gives that draft back |
| `UpdateMovie.SaveUnedited` | src/pages/UpdateMovie.tsx:51 | an unedited prefilled draft, saved under the movie's id, gives back the movie with falsy synopsis or picture stored as "" |
| `UpdateMovie.EditForm.SetTitle` | src/pages/UpdateMovie.tsx:87 | changes the title of the next draft and nothing else; keeps the id |
| `UpdateMovie.EditForm.SetAuthor` | src/pages/UpdateMovie.tsx:99 | changes the author of the next draft and nothing else; keeps the id |
| `UpdateMovie.EditForm.SetGenre` | src/pages/UpdateMovie.tsx:111 | changes the genre of the next draft and nothing else; keeps the id |
| `UpdateMovie.EditForm.SetSynopsis` | src/pages/UpdateMovie.tsx:122 | changes the synopsis of the next draft and nothing else; keeps the id |
| `UpdateMovie.EditForm.SetPicture` | src/pages/UpdateMovie.tsx:134 | changes the picture of the next draft and nothing else; keeps the id |
| `UpdateMovie.PutRequest` | src/pages/UpdateMovie.tsx:60-66 | the update is a PUT to the route id's movie path whose body is the five-field draft |
| `UpdateMovie.SubmitNavigation` | src/pages/UpdateMovie.tsx:68-73 | navigates to "/" + the returned `_id` ("undefined" when missing), whatever the status; not at all on a rejection or a null body |
| `UpdateMovie.SubmitRequest` | src/pages/UpdateMovie.tsx:51-66 | a request is sent iff title, author and genre are non-empty (the `required` inputs), and it is then `PutRequest` of the draft |
| `UpdateMovie.EmptyFormNotSent` | src/pages/UpdateMovie.tsx:15-19 | a form that was never prefilled sends nothing |
| `UpdateMovie.EditForm.Submit` | src/pages/UpdateMovie.tsx:43-74 | sends `SubmitRequest` of the current fields and, when sent, returns `SubmitNavigation` of the reply; nothing is sent and no navigation happens otherwise; changes no field |
| `UpdateMovie.EditForm.Cancel` | src/pages/UpdateMovie.tsx:145 | the cancel button submits the form exactly as `Submit` does |
| `UpdateMovie.SubmitUnedited` | src/pages/UpdateMovie.tsx:23-73 | prefill then submit without edits sends the fetched record's normalised five fields when the required ones are non-empty and, with the id echoed, goes to its detail page |
| `UpdateMovie.SubmitWithEditedTitle` | src/pages/UpdateMovie.tsx:51 | prefill, a title edit, then submit sends the prefilled draft with only the title replaced |

## Left out

- `src/pages/CreateMovie.tsx` is not part of this model: its validation is a schema-library declaration whose URL rule is not visible, and the rest is a request and a navigation.
- `src/App.tsx` is not part of this model: route matching is done by the router library; routes appear here only as the strings the pages navigate to.
- The catalog's list fetch (`src/pages/Home.tsx:21-34`) is not modelled; the fetched list is an input of the filter and option functions.
- Requests carry only verb, path and body: the backend host and the `Content-Type` header are omitted, and JSON encoding and decoding are replaced by parsed values.
- Asynchronous interleaving is not modelled: each request settles before the next action, and a request is never cancelled when its page unmounts. A page refetching after its route id changes (`MovieDetail.DetailPage` or `UpdateMovie.EditForm`) is `RouteChanged` followed by a second `FetchMovie` on the same object.
- `UpdateMovie.EditForm.Cancel`: the history step `navigate(-1)` is left out, because history has no state in this model; only the form submission the button also triggers is modelled.
- `Home.CardSynopsis`: the cut at 100 counts Unicode code points, while `slice` counts UTF-16 code units; a synopsis with characters outside the Basic Multilingual Plane is cut later than on screen, and a surrogate pair cut in half is not modelled.
- `UpdateMovie.SubmitRequest`: the browser's `required` check is modelled as "not the empty string", which is what it tests for text inputs; other browser validation is not modelled.
- `Builtins.Lower`: maps only the ASCII letters A-Z, because the full Unicode case mapping of `toLowerCase` is not modelled; the filter lemmas hold for this mapping.
- `UpdateMovie.EditForm.FetchMovie`: a parsed body is taken to be a movie record, so a body missing `title`, `author` or `genre`, which would set that field to `undefined`, is not modelled.
- `UpdateMovie.SubmitNavigation`: an `_id` that is present but not a string is not modelled.
