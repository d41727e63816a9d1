/**
 * The add/edit form: its initial and edit-prefilled contents, the AI
 * auto-fill merge, category resolution and the record a submission saves.
 */
module MovieForm {
  import opened Wrappers
  import opened Text
  import opened Types

  /** The five editable fields of the form. */
  datatype FormData = FormData(
    title: string,
    youtubeUrl: string,
    photoUrl: string,
    description: string,
    category: string)

  /** The form fields a user can type into. */
  datatype Field = Title | YoutubeUrl | PhotoUrl | Description | Category

  const RequiredMessage: string := "Title and YouTube URL are required."
  const NoInputMessage: string := "Provide a YouTube URL or Title for AI."
  const AIFailedMessage: string := "AI could not fetch details."

  /** A blank form: every text field empty, the category the first listed one (`Action` when there is none, or it is empty). */
  function InitialFormData(categories: seq<string>): (fd: FormData)
    ensures fd.title == "" && fd.youtubeUrl == "" && fd.photoUrl == "" && fd.description == ""
    ensures fd.category != ""
    ensures |categories| > 0 && categories[0] != "" ==> fd.category == categories[0]
    ensures (|categories| == 0 || categories[0] == "") ==> fd.category == FirstCategory
  {
    FormData("", "", "", "", if |categories| > 0 && categories[0] != "" then categories[0] else FirstCategory)
  }

  /** The form contents when opened to edit `m`. */
  function FormFromMovie(m: Movie): (fd: FormData)
    ensures !MissingRequired(fd) <==> m.title != "" && m.youtubeUrl != ""
    ensures fd.title == m.title && fd.youtubeUrl == m.youtubeUrl && fd.photoUrl == m.photoUrl
    ensures fd.description == m.description && fd.category == m.category
  {
    FormData(m.title, m.youtubeUrl, m.photoUrl, m.description, m.category)
  }

  /** A submission is refused when the title or the video URL is empty. */
  predicate MissingRequired(fd: FormData)
    ensures AutoFillInput(fd).None? ==> MissingRequired(fd)
    ensures fd.youtubeUrl == "" ==> MissingRequired(fd)
  {
    fd.title == "" || fd.youtubeUrl == ""
  }

  /** The category a submission saves: the trimmed custom name (`Other` when blank) in new-category mode, the selected one otherwise. */
  function ResolveCategory(isNewCategory: bool, customCategory: string, selected: string): (c: string)
    ensures !isNewCategory ==> c == selected
    ensures isNewCategory ==> c != "" && !IsWhitespace(c[0]) && !IsWhitespace(c[|c| - 1])
    ensures isNewCategory && Trim(customCategory) != "" ==> c == Trim(customCategory)
    ensures isNewCategory && Trim(customCategory) == "" ==> c == FallbackCategory
  {
    if isNewCategory then (if Trim(customCategory) != "" then Trim(customCategory) else FallbackCategory)
    else selected
  }

  /**
   * The record handed to the parent on submit: the form's fields with the
   * resolved category, the edited movie's id and creation time when those
   * are non-empty / non-zero, otherwise the fresh id and the current time.
   */
  function BuildMovie(fd: FormData, category: string, editing: Option<Movie>, freshId: string, now: int): (m: Movie)
    ensures FormFromMovie(m) == fd.(category := category)
    ensures editing.Some? && editing.value.id != "" ==> m.id == editing.value.id
    ensures (editing.None? || editing.value.id == "") ==> m.id == freshId
    ensures editing.Some? && editing.value.createdAt != 0 ==> m.createdAt == editing.value.createdAt
    ensures (editing.None? || editing.value.createdAt == 0) ==> m.createdAt == now
  {
    Movie(
      if editing.Some? && editing.value.id != "" then editing.value.id else freshId,
      fd.title, fd.youtubeUrl, fd.photoUrl, fd.description, category,
      if editing.Some? && editing.value.createdAt != 0 then editing.value.createdAt else now)
  }

  /** Opening a movie for edit and submitting it untouched saves that very movie. */
  lemma EditUnchangedRoundTrip(m: Movie, customCategory: string, freshId: string, now: int)
    requires m.id != "" && m.createdAt != 0
    ensures BuildMovie(FormFromMovie(m), ResolveCategory(false, customCategory, FormFromMovie(m).category),
                       Some(m), freshId, now) == m
  {
  }

  /** The text sent to the AI: the video URL when present, else the title; none when both are empty. */
  function AutoFillInput(fd: FormData): (input: Option<string>)
    ensures input.None? <==> fd.youtubeUrl == "" && fd.title == ""
    ensures input.Some? ==> input.value != "" && (input.value == fd.youtubeUrl || input.value == fd.title)
    ensures fd.youtubeUrl != "" ==> input == Some(fd.youtubeUrl)
  {
    if fd.youtubeUrl != "" then Some(fd.youtubeUrl)
    else if fd.title != "" then Some(fd.title)
    else None
  }

  /** A suggested value wins unless it is absent or empty; then the previous value stays. */
  function Prefer(suggested: Option<string>, previous: string): (r: string)
    ensures suggested.Some? && suggested.value != "" ==> r == suggested.value
    ensures suggested.None? || suggested.value == "" ==> r == previous
    ensures previous != "" ==> r != ""
  {
    if suggested.Some? && suggested.value != "" then suggested.value else previous
  }

  /** The form after merging a suggestion: only non-empty suggested title, description and category replace the current ones. */
  function MergeSuggestion(fd: FormData, s: AIResponse): (r: FormData)
    ensures r.youtubeUrl == fd.youtubeUrl && r.photoUrl == fd.photoUrl
    ensures r.title == (if s.title.Some? && s.title.value != "" then s.title.value else fd.title)
    ensures r.description == (if s.description.Some? && s.description.value != "" then s.description.value else fd.description)
    ensures r.category == (if s.category.Some? && s.category.value != "" then s.category.value else fd.category)
  {
    fd.(title := Prefer(s.title, fd.title),
        description := Prefer(s.description, fd.description),
        category := Prefer(s.category, fd.category))
  }

  /** Merging the same suggestion twice is merging it once, and an empty suggestion changes nothing. */
  lemma MergeSuggestionIdempotent(fd: FormData, s: AIResponse)
    ensures MergeSuggestion(MergeSuggestion(fd, s), s) == MergeSuggestion(fd, s)
    ensures MergeSuggestion(fd, AIResponse(None, None, None)) == fd
  {
  }

  /** The suggested category is not listed; an absent category is never listed, so it too counts as new. */
  predicate SuggestsNewCategory(categories: seq<string>, s: AIResponse)
    ensures s.category.None? ==> SuggestsNewCategory(categories, s)
    ensures s.category.Some? ==> (SuggestsNewCategory(categories, s) <==> s.category.value !in categories)
  {
    !(s.category.Some? && s.category.value in categories)
  }

  /** The custom category name stored after a suggestion that switches to new-category mode; absent becomes empty. */
  function CustomFromSuggestion(s: AIResponse): (name: string)
    ensures s.category.Some? ==> name == s.category.value
    ensures s.category.None? ==> name == ""
  {
    s.category.GetOr("")
  }

  /**
   * After any suggestion that switches to new-category mode, submitting
   * resolves to a non-empty category: the suggested name when it has
   * non-blank text, `Other` when the suggestion had no category.
   */
  lemma SuggestionThenSubmitResolves(categories: seq<string>, s: AIResponse, selected: string)
    requires SuggestsNewCategory(categories, s)
    ensures ResolveCategory(true, CustomFromSuggestion(s), selected) != ""
    ensures s.category.None? ==> ResolveCategory(true, CustomFromSuggestion(s), selected) == FallbackCategory
    ensures s.category.Some? && Trim(s.category.value) != "" ==>
      ResolveCategory(true, CustomFromSuggestion(s), selected) == Trim(s.category.value)
  {
    assert Trim("") == "";
  }

  // ---------------------------------------------------------- as written

  /** As written, the stored custom name is the suggestion's category itself, `undefined` (None) when absent. */
  function CustomFromSuggestionAsWritten(s: AIResponse): (name: Option<string>)
    ensures name.Some? <==> s.category.Some?
  {
    s.category
  }

  /** As written, category resolution calls `trim` on the stored name; on `undefined` that throws (None). */
  function ResolveCategoryAsWritten(isNewCategory: bool, customCategory: Option<string>, selected: string): (c: Option<string>)
    ensures c.None? <==> isNewCategory && customCategory.None?
    ensures customCategory.Some? ==> c == Some(ResolveCategory(isNewCategory, customCategory.value, selected))
  {
    if !isNewCategory then Some(selected)
    else match customCategory
      case None => None
      case Some(name) => Some(ResolveCategory(true, name, selected))
  }

  /** A suggestion without a category switches to new-category mode, and the following submit throws. */
  lemma MissingCategoryThrowsAsWritten(categories: seq<string>, selected: string)
    ensures var s := AIResponse(Some("Alpha"), Some(""), None);
      SuggestsNewCategory(categories, s)
      && ResolveCategoryAsWritten(true, CustomFromSuggestionAsWritten(s), selected).None?
  {
  }

  // ------------------------------------------------------------ the form

  /** The form component's state for one opening of the dialog. */
  class Form {
    const movieToEdit: Option<Movie>
    const categories: seq<string>
    var formData: FormData
    var isNewCategory: bool
    var customCategory: string
    var isAIThinking: bool
    var error: string

    /** The state right after mounting, before the edit prefill runs. */
    constructor (movieToEdit: Option<Movie>, categories: seq<string>)
      ensures this.movieToEdit == movieToEdit && this.categories == categories
      ensures formData == InitialFormData(categories)
      ensures !isNewCategory && customCategory == "" && !isAIThinking && error == ""
    {
      this.movieToEdit := movieToEdit;
      this.categories := categories;
      formData := InitialFormData(categories);
      isNewCategory := false;
      customCategory := "";
      isAIThinking := false;
      error := "";
    }

    /** The effect on `movieToEdit`: copy the edited movie's five fields into the form. */
    method PrefillForEdit()
      modifies this`formData
      ensures formData == if movieToEdit.Some? then FormFromMovie(movieToEdit.value) else old(formData)
    {
      if movieToEdit.Some? {
        formData := FormFromMovie(movieToEdit.value);
      }
    }

    /** Typing into one field replaces that field only. */
    method SetField(field: Field, value: string)
      modifies this`formData
      ensures formData == match field
        case Title => old(formData).(title := value)
        case YoutubeUrl => old(formData).(youtubeUrl := value)
        case PhotoUrl => old(formData).(photoUrl := value)
        case Description => old(formData).(description := value)
        case Category => old(formData).(category := value)
    {
      match field
      case Title => formData := formData.(title := value);
      case YoutubeUrl => formData := formData.(youtubeUrl := value);
      case PhotoUrl => formData := formData.(photoUrl := value);
      case Description => formData := formData.(description := value);
      case Category => formData := formData.(category := value);
    }

    /** The "Create New Category" / "Use Existing" switch. */
    method ToggleNewCategory()
      modifies this`isNewCategory
      ensures isNewCategory == !old(isNewCategory)
    {
      isNewCategory := !isNewCategory;
    }

    /** Typing a custom category name. */
    method SetCustomCategory(name: string)
      modifies this`customCategory
      ensures customCategory == name
    {
      customCategory := name;
    }

    /**
     * Smart auto-fill. `request` is the text sent to the AI (None: no request
     * was made); `suggestion` stands for the AI's answer to it, None on failure.
     */
    method AutoFill(suggestion: Option<AIResponse>) returns (request: Option<string>)
      modifies this`formData, this`isNewCategory, this`customCategory, this`isAIThinking, this`error
      ensures request == AutoFillInput(old(formData))
      ensures request.None? ==> isAIThinking == old(isAIThinking)
      ensures request.Some? ==> !isAIThinking
      ensures request.None? ==> (
        error == NoInputMessage && formData == old(formData)
        && isNewCategory == old(isNewCategory) && customCategory == old(customCategory))
      ensures request.Some? && suggestion.None? ==> (
        error == AIFailedMessage && formData == old(formData)
        && isNewCategory == old(isNewCategory) && customCategory == old(customCategory))
      ensures request.Some? && suggestion.Some? ==> (
        error == "" && formData == MergeSuggestion(old(formData), suggestion.value)
        && (SuggestsNewCategory(categories, suggestion.value) ==>
              isNewCategory && customCategory == CustomFromSuggestion(suggestion.value))
        && (!SuggestsNewCategory(categories, suggestion.value) ==>
              isNewCategory == old(isNewCategory) && customCategory == old(customCategory)))
    {
      request := AutoFillInput(formData);
      if request.None? {
        error := NoInputMessage;
        return;
      }
      error := "";
      isAIThinking := true;
      // the request to the AI is awaited here; its answer is `suggestion`
      isAIThinking := false;
      match suggestion
      case Some(s) =>
        formData := MergeSuggestion(formData, s);
        if SuggestsNewCategory(categories, s) {
          isNewCategory := true;
          customCategory := CustomFromSuggestion(s);
        }
      case None =>
        error := AIFailedMessage;
    }

    /**
     * Submit. `saved` is the record handed to `onSave` (None: refused);
     * `freshId` and `now` stand for `crypto.randomUUID()` and `Date.now()`.
     */
    method Submit(freshId: string, now: int) returns (saved: Option<Movie>)
      modifies this`error
      ensures MissingRequired(formData) ==> saved.None? && error == RequiredMessage
      ensures !MissingRequired(formData) ==> (
        error == old(error)
        && saved == Some(BuildMovie(formData, ResolveCategory(isNewCategory, customCategory, formData.category),
                                    movieToEdit, freshId, now)))
    {
      if MissingRequired(formData) {
        error := RequiredMessage;
        return None;
      }
      var finalCategory := ResolveCategory(isNewCategory, customCategory, formData.category);
      saved := Some(BuildMovie(formData, finalCategory, movieToEdit, freshId, now));
    }
  }
}
