/** What a transaction can raise. */
module Errors {
  import opened Tables

  datatype Error =
    /** PyIceberg's NoSuchTableError. */
    | MissingTable(name: string)
    /** The warehouse has no file at a pointer's location. */
    | MissingMetadata(name: string)
    /** ValueError: nothing was staged and no array changed. */
    | MadeNoChanges
    /** icechunk.ConflictError: the branch tip moved. */
    | BranchMoved
    /** TableConflictError. */
    | TableConflict(name: string, filter: Predicate, ids: seq<nat>)
    /** UnreplayableChangeError. */
    | Unreplayable(tables: set<string>)
    /** icechunk's rebase refused the staged array changes. */
    | RebaseFailed
    /** icechunk refuses an empty commit that was not allowed explicitly. */
    | NothingToCommit
    /** The assertion behind the retry loop. */
    | Unreachable
}
