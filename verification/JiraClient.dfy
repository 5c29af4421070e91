/** What the collections of the Jira client share: their errors, page limits, and appending within a limit. */
module JiraClient {
  import opened Wrappers

  datatype JiraError =
    | CollectionLimitReached
    | InvalidPagination
    | InvalidWorklog
    | InvalidDate
    | RequestFailed(status: nat)

  datatype PageLimits = PageLimits(pageSize: nat, maxItems: nat) {
    /** What the constructor of page limits accepts; a page size is an unsigned 16-bit number. */
    predicate Valid() { 0 < pageSize <= 0xFFFF && 0 < maxItems }
  }

  function AppendWithLimit<T>(target: seq<T>, values: seq<T>, maximum: nat): Result<seq<T>, JiraError> {
    var remaining := if |target| <= maximum then maximum - |target| else 0;
    if |values| > remaining then Failure(CollectionLimitReached) else Success(target + values)
  }
}
