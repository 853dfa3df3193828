/** The edit form: five text fields that start empty, are prefilled from the
    fetched movie and edited one at a time, then packed into a draft that is
    sent as a full replacement of the movie named by the route. */
module UpdateMovie {
  import opened Movies

  /** The five field values the form takes from a fetched movie: title, author
      and genre verbatim, synopsis and picture when truthy and "" otherwise. */
  function PrefillDraft(m: Movie): (d: Draft)
    ensures d.title == m.title && d.author == m.author && d.genre == m.genre
    ensures Truthy(m.synopsis) ==> d.synopsis == m.synopsis.value
    ensures !Truthy(m.synopsis) ==> d.synopsis == ""
    ensures Truthy(m.picture) ==> d.picture == m.picture.value
    ensures !Truthy(m.picture) ==> d.picture == ""
  {
    Draft(m.title, m.author, m.genre, OrElse(m.synopsis, ""), OrElse(m.picture, ""))
  }

  /** The record a full replacement with draft `d` leaves under identifier `id`. */
  function WithId(d: Draft, id: string): (m: Movie)
    ensures m.id == id && m.title == d.title && m.author == d.author && m.genre == d.genre
    ensures m.synopsis == Some(d.synopsis) && m.picture == Some(d.picture)
  {
    Movie(id, d.title, d.author, d.genre, Some(d.synopsis), Some(d.picture))
  }

  /** Re-opening the form on the record a draft was saved as shows that draft again. */
  lemma PrefillAfterSave(d: Draft, id: string)
    ensures PrefillDraft(WithId(d, id)) == d
  {
  }

  /** Saving an unedited prefilled form gives back the fetched movie, except that
      a falsy synopsis or picture is stored as "". */
  lemma SaveUnedited(m: Movie)
    ensures WithId(PrefillDraft(m), m.id).synopsis == Some(OrElse(m.synopsis, ""))
    ensures WithId(PrefillDraft(m), m.id).picture == Some(OrElse(m.picture, ""))
    ensures Truthy(m.synopsis) && Truthy(m.picture) ==> WithId(PrefillDraft(m), m.id) == m
  {
  }

  /** The full replacement sent on submit: a PUT to the route's movie carrying the draft. */
  function PutRequest(id: string, d: Draft): (r: Request)
    ensures r.verb == Put && r.path == MoviePath(id) && r.body == Some(d)
  {
    Request(Put, MoviePath(id), Some(d))
  }

  /** The browser's validation of the `required` inputs: title, author and
      genre must not be empty before the submit handler runs. */
  predicate RequiredFilled(d: Draft)
  {
    d.title != "" && d.author != "" && d.genre != ""
  }

  /** The request a submit sends: none while a required field is empty,
      otherwise the full replacement of the route's movie. */
  function SubmitRequest(id: string, d: Draft): (r: Option<Request>)
    ensures r.Some? <==> d.title != "" && d.author != "" && d.genre != ""
    ensures r.Some? ==> r.value == PutRequest(id, d)
  {
    if RequiredFilled(d) then Some(PutRequest(id, d)) else None
  }

  /** A form that was never prefilled (or whose prefill failed) sends nothing. */
  lemma EmptyFormNotSent(id: string)
    ensures SubmitRequest(id, Draft("", "", "", "", "")) == None
  {
  }

  /** The parsed body of the PUT response: JSON null, or an object whose `_id`
      may be missing. */
  datatype SavedBody = NullBody | ObjectBody(returnedId: Option<string>)

  /** Where the page goes once the PUT settles. The `ok` flag is not looked at;
      a rejection, or reading `_id` of null, stops the handler before it
      navigates; a missing `_id` is concatenated as "undefined". */
  function SubmitNavigation(reply: Reply<SavedBody>): (target: Option<string>)
    ensures target.None? <==> reply.Threw? || reply.body == NullBody
    ensures reply.Responded? && reply.body.ObjectBody? && reply.body.returnedId.Some? ==>
      target == Some(DetailRoute(reply.body.returnedId.value))
    ensures reply.Responded? && reply.body == ObjectBody(None) ==> target == Some(DetailRoute("undefined"))
  {
    match reply
    case Threw(_) => None
    case Responded(_, NullBody) => None
    case Responded(_, ObjectBody(returnedId)) =>
      Some("/" + (match returnedId case Some(i) => i case None => "undefined"))
  }

  /** The edit form for the movie named by the route. */
  class EditForm {
    var id: string
    var title: string
    var author: string
    var genre: string
    var synopsis: string
    var picture: string

    /** The draft the form would submit now. */
    function CurrentDraft(): Draft
      reads this
    {
      Draft(title, author, genre, synopsis, picture)
    }

    constructor(id: string)
      ensures this.id == id
      ensures CurrentDraft() == Draft("", "", "", "", "")
    {
      this.id := id;
      title, author, genre, synopsis, picture := "", "", "", "", "";
    }

    /** Sends the GET for the route's movie and prefills the fields from its
      body. The `ok` flag is not looked at; a rejection or a null body stops
      the handler before any field is set. */
    method FetchMovie(reply: Reply<Option<Movie>>) returns (request: Request)
      modifies this
      ensures id == old(id)
      ensures request == Request(Get, MoviePath(id), None)
      ensures reply.Responded? && reply.body.Some? ==> CurrentDraft() == PrefillDraft(reply.body.value)
      ensures !(reply.Responded? && reply.body.Some?) ==> CurrentDraft() == old(CurrentDraft())
    {
      request := Request(Get, MoviePath(id), None);
      if reply.Responded? && reply.body.Some? {
        var data := reply.body.value;
        title := data.title;
        author := data.author;
        genre := data.genre;
        synopsis := OrElse(data.synopsis, "");
        picture := OrElse(data.picture, "");
      }
    }

    /** The route id changes while the form stays mounted: the identifier is
      replaced and the five fields keep their values; the effect then calls
      `FetchMovie` again. */
    method RouteChanged(newId: string)
      modifies this
      ensures id == newId
      ensures CurrentDraft() == old(CurrentDraft())
    {
      id := newId;
    }

    method SetTitle(value: string)
      modifies this
      ensures id == old(id)
      ensures CurrentDraft() == old(CurrentDraft()).(title := value)
    {
      title := value;
    }

    method SetAuthor(value: string)
      modifies this
      ensures id == old(id)
      ensures CurrentDraft() == old(CurrentDraft()).(author := value)
    {
      author := value;
    }

    method SetGenre(value: string)
      modifies this
      ensures id == old(id)
      ensures CurrentDraft() == old(CurrentDraft()).(genre := value)
    {
      genre := value;
    }

    method SetSynopsis(value: string)
      modifies this
      ensures id == old(id)
      ensures CurrentDraft() == old(CurrentDraft()).(synopsis := value)
    {
      synopsis := value;
    }

    method SetPicture(value: string)
      modifies this
      ensures id == old(id)
      ensures CurrentDraft() == old(CurrentDraft()).(picture := value)
    {
      picture := value;
    }

    /** Packs the fields into a draft and, when the browser's `required`
      validation lets the submit through, sends it as the full replacement of
      the route's movie and returns where the page navigates, if anywhere. */
    method Submit(reply: Reply<SavedBody>) returns (request: Option<Request>, target: Option<string>)
      ensures request == SubmitRequest(id, CurrentDraft())
      ensures request.None? ==> target.None?
      ensures request.Some? ==> target == SubmitNavigation(reply)
    {
      if !RequiredFilled(CurrentDraft()) {
        return None, None;
      }
      var draft := Draft(title, author, genre, synopsis, picture);
      request := Some(Request(Put, MoviePath(id), Some(draft)));
      match reply {
        case Threw(_) =>
          target := None;
        case Responded(_, body) =>
          match body {
            case NullBody =>
              target := None;
            case ObjectBody(returnedId) =>
              var movieId := match returnedId case Some(i) => i case None => "undefined";
              target := Some("/" + movieId);
          }
      }
    }

    /** The cancel button has no `type`, so inside the form it is a submit
      button: its click handler goes back in history (not modelled), and the
      form is then submitted exactly as by `Submit`. */
    method Cancel(reply: Reply<SavedBody>) returns (request: Option<Request>, target: Option<string>)
      ensures request == SubmitRequest(id, CurrentDraft())
      ensures request.None? ==> target.None?
      ensures request.Some? ==> target == SubmitNavigation(reply)
    {
      request, target := Submit(reply);
    }
  }

  /** Opening the form on the route of movie `m`, then submitting without edits,
      sends `m`'s five normalised fields to the same route when its title,
      author and genre are non-empty and, when the backend echoes the
      identifier, navigates to that movie's detail page. */
  method SubmitUnedited(m: Movie, ok: bool) returns (request: Option<Request>, target: Option<string>)
    ensures request == SubmitRequest(m.id, PrefillDraft(m))
    ensures m.title != "" && m.author != "" && m.genre != "" ==> target == Some(DetailRoute(m.id))
  {
    var form := new EditForm(m.id);
    var _ := form.FetchMovie(Responded(true, Some(m)));
    request, target := form.Submit(Responded(ok, ObjectBody(Some(m.id))));
  }

  /** Editing one field between prefill and submit changes that field of the
      submitted draft and nothing else. */
  method SubmitWithEditedTitle(m: Movie, newTitle: string) returns (request: Option<Request>)
    ensures request == SubmitRequest(m.id, PrefillDraft(m).(title := newTitle))
  {
    var form := new EditForm(m.id);
    var _ := form.FetchMovie(Responded(true, Some(m)));
    form.SetTitle(newTitle);
    var target;
    request, target := form.Submit(Threw(""));
  }

  /** A form prefilled from movie `m` whose route then changes to `newId`, and
      whose refetch is rejected, keeps `m`'s fields and submits them as the
      replacement of the movie `newId`. */
  method SubmitAfterRejectedRefetch(m: Movie, newId: string, message: string) returns (request: Option<Request>)
    ensures request == SubmitRequest(newId, PrefillDraft(m))
  {
    var form := new EditForm(m.id);
    var _ := form.FetchMovie(Responded(true, Some(m)));
    form.RouteChanged(newId);
    var _ := form.FetchMovie(Threw(message));
    var target;
    request, target := form.Submit(Threw(""));
  }
}
