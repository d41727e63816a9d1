/**
 * The application root's state: the movie list, the category list, the
 * form's open/edit state and the current filter, with the handlers that
 * update them.
 */
module App {
  import opened Wrappers
  import opened Seqs
  import opened Types
  import opened Catalog
  import MovieForm
  import MovieCard

  /** The root component's state. */
  class CatalogStore {
    var movies: seq<Movie>
    var categories: seq<string>
    var isFormOpen: bool
    var movieToEdit: Option<Movie>
    var activeCategory: string
    var searchTerm: string

    /**
     * The category list begins with the defaults and never repeats a name,
     * and a closed form has no movie being edited.
     */
    ghost predicate Valid()
      reads this
    {
      |DefaultCategories| <= |categories| && categories[..|DefaultCategories|] == DefaultCategories
      && NoDuplicates(categories)
      && (!isFormOpen ==> movieToEdit.None?)
    }

    /** The state on first render, before storage is read. */
    constructor ()
      ensures Valid()
      ensures movies == [] && categories == DefaultCategories
      ensures !isFormOpen && movieToEdit.None? && activeCategory == "All" && searchTerm == ""
    {
      movies := [];
      categories := DefaultCategories;
      isFormOpen := false;
      movieToEdit := None;
      activeCategory := "All";
      searchTerm := "";
      DefaultCategoriesShape();
    }

    /**
     * The mount effect. Each argument is the parsed stored value, None when
     * it is missing or does not parse; then that part of the state is kept.
     */
    method LoadSaved(savedMovies: Option<seq<Movie>>, savedCategories: Option<seq<string>>)
      requires Valid()
      modifies this`movies, this`categories
      ensures Valid()
      ensures movies == savedMovies.GetOr(old(movies))
      ensures categories == if savedCategories.Some? then MergeCategories(savedCategories.value) else old(categories)
    {
      if savedMovies.Some? {
        movies := savedMovies.value;
      }
      if savedCategories.Some? {
        MergeCategoriesSpec(savedCategories.value);
        categories := MergeCategories(savedCategories.value);
      }
    }

    /**
     * The form's save handler: replace the edited movie's entries in place
     * or prepend a new one, list its category if it is new, close the form.
     */
    method AddOrUpdateMovie(movieData: Movie)
      requires Valid()
      modifies this`movies, this`categories, this`isFormOpen, this`movieToEdit
      ensures Valid()
      ensures movies == SaveMovie(old(movies), old(movieToEdit), movieData)
      ensures categories == AddCategory(old(categories), movieData.category)
      ensures movieData.category in categories
      ensures !isFormOpen && movieToEdit.None?
    {
      movies := SaveMovie(movies, movieToEdit, movieData);
      if movieData.category !in categories {
        categories := categories + [movieData.category];
      }
      AddCategoryKeepsDistinct(old(categories), movieData.category);
      isFormOpen := false;
      movieToEdit := None;
    }

    /** The card's delete handler: drop every entry with that id. */
    method DeleteMovie(id: string)
      requires Valid()
      modifies this`movies
      ensures Valid()
      ensures movies == RemoveById(old(movies), id)
    {
      movies := RemoveById(movies, id);
    }

    /** The card's edit handler: open the form on that movie. */
    method EditClick(movie: Movie)
      requires Valid()
      modifies this`movieToEdit, this`isFormOpen
      ensures Valid()
      ensures isFormOpen && movieToEdit == Some(movie)
    {
      movieToEdit := Some(movie);
      isFormOpen := true;
    }

    /** The header's "Add Movie" button: open a blank form. */
    method OpenAddForm()
      requires Valid()
      modifies this`movieToEdit, this`isFormOpen
      ensures Valid()
      ensures isFormOpen && movieToEdit.None?
    {
      movieToEdit := None;
      isFormOpen := true;
    }

    /**
     * The empty-state "Add a movie now" button, which only opens the form;
     * because a closed form never has a movie being edited, it opens blank.
     */
    method OpenFormFromEmptyState()
      requires Valid()
      modifies this`isFormOpen
      ensures Valid()
      ensures isFormOpen && movieToEdit == if old(isFormOpen) then old(movieToEdit) else None
    {
      isFormOpen := true;
    }

    /** The form's close handler. */
    method CloseForm()
      requires Valid()
      modifies this`isFormOpen, this`movieToEdit
      ensures Valid()
      ensures !isFormOpen && movieToEdit.None?
    {
      isFormOpen := false;
      movieToEdit := None;
    }

    /** Picking a category tab (`All` included). */
    method SetActiveCategory(c: string)
      modifies this`activeCategory
      ensures activeCategory == c
    {
      activeCategory := c;
    }

    /** Typing in the search box. */
    method SetSearchTerm(term: string)
      modifies this`searchTerm
      ensures searchTerm == term
    {
      searchTerm := term;
    }

    /** The movies shown: those matching the current filter, in list order. */
    function FilteredMovies(): (r: seq<Movie>)
      reads this
      ensures forall m :: m in r <==> m in movies && Matches(m, activeCategory, searchTerm)
      ensures forall m :: multiset(r)[m] == if Matches(m, activeCategory, searchTerm) then multiset(movies)[m] else 0
      ensures IsSubsequence(r, movies)
      ensures activeCategory == "All" && searchTerm == "" ==> r == movies
    {
      VisibleAllUnfiltered(movies);
      VisibleCounts(movies, activeCategory, searchTerm);
      Visible(movies, activeCategory, searchTerm)
    }
  }

  /**
   * Submitting the form opened on `e` (with a non-empty id) and saving the
   * result keeps the list's ids exactly, so unique ids stay unique.
   */
  lemma EditSubmitKeepsIds(ms: seq<Movie>, e: Movie, fd: MovieForm.FormData, category: string, freshId: string, now: int)
    requires e.id != ""
    ensures var saved := MovieForm.BuildMovie(fd, category, Some(e), freshId, now);
      Ids(SaveMovie(ms, Some(e), saved)) == Ids(ms)
      && (UniqueIds(ms) ==> UniqueIds(SaveMovie(ms, Some(e), saved)))
  {
    SaveEditKeepsIds(ms, e, MovieForm.BuildMovie(fd, category, Some(e), freshId, now));
  }

  /** Submitting a new movie with an id not yet listed and saving it keeps ids unique and grows the list by one. */
  lemma AddSubmitKeepsUnique(ms: seq<Movie>, fd: MovieForm.FormData, category: string, freshId: string, now: int)
    requires UniqueIds(ms) && freshId !in Ids(ms)
    ensures var saved := MovieForm.BuildMovie(fd, category, None, freshId, now);
      UniqueIds(SaveMovie(ms, None, saved)) && |SaveMovie(ms, None, saved)| == |ms| + 1
  {
    SaveNewUnique(ms, MovieForm.BuildMovie(fd, category, None, freshId, now));
  }

  /** Confirming a delete on a card removes that card's movie, and only entries sharing its id, from the list. */
  lemma ConfirmedDeleteRemovesCard(ms: seq<Movie>, card: Movie)
    ensures var (_, effect) := MovieCard.Step(true, card, MovieCard.ConfirmDelete);
      effect.Deleted? && card !in RemoveById(ms, effect.id)
      && forall m :: m in ms && m.id != card.id ==> m in RemoveById(ms, effect.id)
  {
  }
}
