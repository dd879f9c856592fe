/** The search and detail hooks: each holds a result, a loading flag and an
    error, and its effect writes them in a fixed sequence around one call to
    the catalogue (set loading and clear the error, then store the data or
    the error, then clear loading). The call's outcome is a parameter. */
module AnimeHooks {
  import opened Types

  const SearchFailedMessage: string := "Error al buscar anime"
  const DetailFailedMessage: string := "No se pudo cargar el anime."

  class AnimeSearchState {
    var results: seq<Anime>
    var isLoading: bool
    var error: Option<string>

    /** No results, not loading, no error. */
    constructor ()
      ensures results == [] && !isLoading && error == None
    {
      results := [];
      isLoading := false;
      error := None;
    }

    /** The start of `fetchAnime`: loading on, error cleared, results kept. */
    method BeginSearch()
      modifies this`isLoading, this`error
      ensures isLoading && error == None
    {
      isLoading := true;
      error := None;
    }

    /** The end of `fetchAnime`: the returned data replaces the results, or
        the error is set and the previous results stay; loading ends either
        way. */
    method FinishSearch(outcome: Outcome<seq<Anime>>)
      modifies this
      ensures !isLoading
      ensures outcome.Succeeded? ==> results == outcome.data && error == old(error)
      ensures outcome.Failed? ==> results == old(results) && error == Some(SearchFailedMessage)
    {
      match outcome {
        case Succeeded(data) =>
          results := data;
        case Failed =>
          error := Some(SearchFailedMessage);
      }
      isLoading := false;
    }

    /** The effect run when the query changes. An empty query empties the
        results and makes no call, leaving loading and error as they are;
        any other query runs one search whose outcome is given. Returns
        whether a call was made. */
    method OnQueryChange(query: string, outcome: Outcome<seq<Anime>>) returns (searched: bool)
      modifies this
      ensures searched <==> query != ""
      ensures query == "" ==>
        results == [] && isLoading == old(isLoading) && error == old(error)
      ensures query != "" ==> !isLoading
      ensures query != "" && outcome.Succeeded? ==> results == outcome.data && error == None
      ensures query != "" && outcome.Failed? ==>
        results == old(results) && error == Some(SearchFailedMessage)
    {
      if query == "" {
        results := [];
        searched := false;
        return;
      }
      searched := true;
      BeginSearch();
      FinishSearch(outcome);
    }
  }

  class AnimeDetailState {
    var anime: Option<Anime>
    var isLoading: bool
    var error: Option<string>

    /** No anime yet, loading, no error. */
    constructor ()
      ensures anime == None && isLoading && error == None
    {
      anime := None;
      isLoading := true;
      error := None;
    }

    method BeginDetail()
      modifies this`isLoading, this`error
      ensures isLoading && error == None
    {
      isLoading := true;
      error := None;
    }

    /** On success the record is stored; on failure the error is set and the
        previous record stays. Loading ends either way. */
    method FinishDetail(outcome: Outcome<Anime>)
      modifies this
      ensures !isLoading
      ensures outcome.Succeeded? ==> anime == Some(outcome.data) && error == old(error)
      ensures outcome.Failed? ==> anime == old(anime) && error == Some(DetailFailedMessage)
    {
      match outcome {
        case Succeeded(data) =>
          anime := Some(data);
        case Failed =>
          error := Some(DetailFailedMessage);
      }
      isLoading := false;
    }

    /** The effect run when the id changes: nothing at all for an empty id,
        otherwise one lookup whose outcome is given. Returns whether a call
        was made. */
    method OnIdChange(id: string, outcome: Outcome<Anime>) returns (fetched: bool)
      modifies this
      ensures fetched <==> id != ""
      ensures id == "" ==>
        anime == old(anime) && isLoading == old(isLoading) && error == old(error)
      ensures id != "" ==> !isLoading
      ensures id != "" && outcome.Succeeded? ==> anime == Some(outcome.data) && error == None
      ensures id != "" && outcome.Failed? ==>
        anime == old(anime) && error == Some(DetailFailedMessage)
    {
      if id == "" {
        fetched := false;
        return;
      }
      fetched := true;
      BeginDetail();
      FinishDetail(outcome);
    }
  }
}
