/** The movie record shared by the three pages, the truthiness rules of the
    optional fields, the client routes, the requests sent to the backend and
    the outcomes a request can settle with. */
module Movies {

  datatype Option<+T> = None | Some(value: T)

  /** A movie as the backend returns it; `synopsis` and `picture` may be absent or null (None). */
  datatype Movie = Movie(
    id: string,
    title: string,
    author: string,
    genre: string,
    synopsis: Option<string>,
    picture: Option<string>)

  /** An optional string field is truthy when it is present and non-empty. */
  predicate Truthy(s: Option<string>)
  {
    s.Some? && s.value != ""
  }

  /** The expression `s || fallback` on an optional string field. */
  function OrElse(s: Option<string>, fallback: string): (r: string)
    ensures Truthy(s) ==> r == s.value
    ensures !Truthy(s) ==> r == fallback
    ensures fallback != "" ==> r != ""
  {
    if Truthy(s) then s.value else fallback
  }

  /** The image shown when a movie has no picture. */
  const PlaceholderImage: string := "https://via.placeholder.com/400"

  /** The `src` of a movie's image, on the catalog cards and on the detail page. */
  function ImageSource(m: Movie): (src: string)
    ensures src != ""
    ensures Truthy(m.picture) ==> src == m.picture.value
    ensures !Truthy(m.picture) ==> src == PlaceholderImage
  {
    OrElse(m.picture, PlaceholderImage)
  }

  // Client routes.
  const CatalogRoute: string := "/"

  function DetailRoute(id: string): string
  {
    "/" + id
  }

  function EditRoute(id: string): string
  {
    "/edit/" + id
  }

  /** A movie without its identifier, as the edit form sends it. */
  datatype Draft = Draft(
    title: string,
    author: string,
    genre: string,
    synopsis: string,
    picture: string)

  datatype Verb = Get | Put | Delete

  /** A request to the backend; the host part of the URL is left out. */
  datatype Request = Request(verb: Verb, path: string, body: Option<Draft>)

  function MoviePath(id: string): string
  {
    "/api/movies/" + id
  }

  /** How an awaited request settles: it throws (transport failure or a body
      that does not parse), or a response arrives with its `ok` flag and its
      parsed body. */
  datatype Reply<+T> = Threw(message: string) | Responded(ok: bool, body: T)
}
