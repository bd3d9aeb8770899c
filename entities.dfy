/**
 * The two stored records, `User` and `StudySpot`, and the optional-value
 * type that stands for Kotlin's nullable results.
 */
module Entities {
  import opened Text

  datatype Option<+T> = None | Some(value: T)

  /**
   * A row of the `users` table. `email` is the primary key. The record has
   * the three stored fields of the entity plus `contacts`, the ordered list
   * of contact emails that the contact view-model reads and writes.
   */
  datatype User = User(email: string, name: string, password: string, contacts: seq<string>)

  /** A row of the `studyspots` table; `id` identifies the spot. */
  datatype StudySpot = StudySpot(
    id: string,
    name: string,
    location: string,
    isGroupWorkAllowed: bool,
    isFree: bool)
  {
    /**
     * The search test the screens and the catalogue share:
     * `name.contains(query, ignoreCase = true) || location.contains(query, ignoreCase = true)`.
     */
    predicate Mentions(query: string)
    {
      ContainsIgnoreCase(name, query) || ContainsIgnoreCase(location, query)
    }
  }
}
