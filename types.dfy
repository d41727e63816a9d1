/** The catalogue's records: a movie, the built-in category list and an AI suggestion. */
module Types {
  import opened Wrappers
  import opened Seqs

  /** One catalogued video link. `createdAt` is a millisecond epoch timestamp. */
  datatype Movie = Movie(
    id: string,
    title: string,
    youtubeUrl: string,
    photoUrl: string,
    description: string,
    category: string,
    createdAt: int)

  /** The categories every installation starts with, in menu order. */
  const DefaultCategories: seq<string> :=
    ["Action", "Comedy", "Drama", "Sci-Fi", "Horror", "Documentary", "Animation", "Other"]

  /** The category a submitted movie gets when its new-category name is blank. */
  const FallbackCategory: string := "Other"

  /** The category a blank form starts with when there is no first category. */
  const FirstCategory: string := "Action"

  /** A metadata guess from the AI collaborator; each field may be absent. */
  datatype AIResponse = AIResponse(
    title: Option<string>,
    description: Option<string>,
    category: Option<string>)

  /** The built-in list: eight distinct names, starting with the form's default and holding the fallback. */
  lemma DefaultCategoriesShape()
    ensures |DefaultCategories| == 8
    ensures NoDuplicates(DefaultCategories)
    ensures DefaultCategories[0] == FirstCategory
    ensures FallbackCategory in DefaultCategories
  {
  }
}
