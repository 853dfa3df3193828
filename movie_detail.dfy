/** The detail page of one movie: three pieces of state (`movie`, `loading`,
    `error`), the fetch issued on mount, the delete action, the edit and back
    buttons, and the choice among the four things the page can show. */
module MovieDetail {
  import opened Movies

  const FetchFailedMessage: string := "Error al obtener la película"
  const DeleteFailedMessage: string := "Error al eliminar la pelicula"

  /** The page's state as a value. */
  datatype DetailState = DetailState(movie: Option<Movie>, loading: bool, error: Option<string>)

  /** The state when the page is mounted: loading, no movie, no error. */
  const Initial: DetailState := DetailState(None, true, None)

  /** What the page shows. */
  datatype View = Loading | Failure(message: string) | NotFound | Loaded(movie: Movie)

  /** The render precedence: loading first, then a (truthy) error, then a
      missing movie, and only then the movie itself. */
  function Render(s: DetailState): (v: View)
    ensures v == Loading <==> s.loading
    ensures v.Failure? <==> !s.loading && Truthy(s.error)
    ensures v.Failure? ==> v.message == s.error.value && v.message != ""
    ensures v == NotFound <==> !s.loading && !Truthy(s.error) && s.movie.None?
    ensures v.Loaded? <==> !s.loading && !Truthy(s.error) && s.movie.Some?
    ensures v.Loaded? ==> Some(v.movie) == s.movie
  {
    if s.loading then Loading
    else if Truthy(s.error) then Failure(s.error.value)
    else if s.movie.None? then NotFound
    else Loaded(s.movie.value)
  }

  /** The state once the fetch of the movie has settled: whatever the outcome,
      loading is over; a failure records an error and keeps the movie; an ok
      response stores its body and keeps the error. */
  function AfterFetch(s: DetailState, reply: Reply<Option<Movie>>): (t: DetailState)
    ensures !t.loading
    ensures reply.Threw? ==> t.movie == s.movie && t.error == Some(reply.message)
    ensures reply.Responded? && !reply.ok ==> t.movie == s.movie && t.error == Some(FetchFailedMessage)
    ensures reply.Responded? && reply.ok ==> t.movie == reply.body && t.error == s.error
  {
    match reply
    case Threw(message) => s.(error := Some(message), loading := false)
    case Responded(ok, body) =>
      if !ok then s.(error := Some(FetchFailedMessage), loading := false)
      else s.(movie := body, loading := false)
  }

  /** The state once a delete request has settled: loading is over and the
      movie is kept; anything but an ok response records an error. */
  function AfterDelete(s: DetailState, reply: Reply<()>): (t: DetailState)
    ensures !t.loading && t.movie == s.movie
    ensures reply.Threw? ==> t.error == Some(reply.message)
    ensures reply.Responded? && !reply.ok ==> t.error == Some(DeleteFailedMessage)
    ensures reply.Responded? && reply.ok ==> t.error == s.error
  {
    match reply
    case Threw(message) => s.(error := Some(message), loading := false)
    case Responded(ok, _) =>
      if !ok then s.(error := Some(DeleteFailedMessage), loading := false)
      else s.(loading := false)
  }

  /** Where a settled delete navigates: to the catalog exactly when the response is ok. */
  function DeleteNavigation(reply: Reply<()>): (target: Option<string>)
    ensures target.Some? <==> reply.Responded? && reply.ok
    ensures target.Some? ==> target.value == CatalogRoute
  {
    if reply.Responded? && reply.ok then Some(CatalogRoute) else None
  }

  /** The first view after the mount fetch settles follows from the outcome alone. */
  lemma MountedView(reply: Reply<Option<Movie>>)
    ensures Render(AfterFetch(Initial, reply)) ==
      match reply
      case Threw(message) => if message != "" then Failure(message) else NotFound
      case Responded(false, _) => Failure(FetchFailedMessage)
      case Responded(true, None) => NotFound
      case Responded(true, Some(m)) => Loaded(m)
  {
  }

  /** Once a fetch has settled the page never shows the loading view again. */
  lemma FetchEndsLoading(s: DetailState, reply: Reply<Option<Movie>>)
    ensures Render(AfterFetch(s, reply)) != Loading
  {
  }

  /** A delete that fails with a message shows that error, does not navigate,
      and keeps the movie. */
  lemma FailedDeleteShowsError(s: DetailState, reply: Reply<()>)
    requires !(reply.Responded? && reply.ok)
    requires reply.Threw? ==> reply.message != ""
    ensures DeleteNavigation(reply).None?
    ensures Render(AfterDelete(s, reply)).Failure?
    ensures AfterDelete(s, reply).movie == s.movie
  {
  }

  /** When the route id changes on a mounted page, the refetch starts from the
      old state: an earlier error stays on screen even after an ok response. */
  lemma StaleErrorAfterRefetch(s: DetailState, m: Movie)
    requires Truthy(s.error)
    ensures Render(AfterFetch(s, Responded(true, Some(m)))) == Failure(s.error.value)
  {
  }

  /** The detail page with the identifier taken from its route. */
  class DetailPage {
    var id: string
    var movie: Option<Movie>
    var loading: bool
    var error: Option<string>

    function State(): DetailState
      reads this
    {
      DetailState(movie, loading, error)
    }

    constructor(id: string)
      ensures this.id == id
      ensures State() == Initial
    {
      this.id := id;
      movie := None;
      loading := true;
      error := None;
    }

    /** The route id changes while the page stays mounted: the identifier is
      replaced and `movie`, `loading` and `error` are kept as they are; the
      effect then calls `FetchMovie` again. */
    method RouteChanged(newId: string)
      modifies this
      ensures id == newId
      ensures State() == old(State())
    {
      id := newId;
    }

    /** Sends the GET for this page's movie and applies its settled outcome. */
    method FetchMovie(reply: Reply<Option<Movie>>) returns (request: Request)
      modifies this
      ensures id == old(id)
      ensures request == Request(Get, MoviePath(id), None)
      ensures State() == AfterFetch(old(State()), reply)
    {
      request := Request(Get, MoviePath(id), None);
      match reply {
        case Threw(message) =>
          error := Some(message);
        case Responded(ok, body) =>
          if !ok {
            error := Some(FetchFailedMessage);
          } else {
            movie := body;
          }
      }
      loading := false;
    }

    /** Sends the DELETE for this page's movie, applies its settled outcome and
      returns where the page navigates, if anywhere. */
    method DeleteMovie(reply: Reply<()>) returns (request: Request, target: Option<string>)
      modifies this
      ensures id == old(id)
      ensures request == Request(Delete, MoviePath(id), None)
      ensures target == DeleteNavigation(reply)
      ensures State() == AfterDelete(old(State()), reply)
    {
      request := Request(Delete, MoviePath(id), None);
      target := None;
      match reply {
        case Threw(message) =>
          error := Some(message);
        case Responded(ok, _) =>
          if !ok {
            error := Some(DeleteFailedMessage);
          } else {
            target := Some(CatalogRoute);
          }
      }
      loading := false;
    }

    /** The edit button, shown with a loaded movie, goes to that movie's edit form. */
    method Edit() returns (target: string)
      requires Render(State()).Loaded?
      ensures movie.Some? && target == EditRoute(movie.value.id)
    {
      target := EditRoute(movie.value.id);
    }

    /** The back button always goes to the catalog. */
    method Back() returns (target: string)
      ensures target == CatalogRoute
    {
      target := CatalogRoute;
    }
  }
}
