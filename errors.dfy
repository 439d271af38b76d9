/**
 * The errors the services throw (backend/src/errors/user.ts, backend/src/errors/dojo.ts),
 * plus the two foreign failures the shown code can raise: a failed `assert.ok` and
 * bcrypt.compare rejecting a missing hash. A storage failure that a service does not
 * translate is carried unchanged in `Storage`.
 */
module Errors {
  import Store

  datatype ServiceError =
    | EmailTaken
    | UserNotExists
    | IncorrectPassword
    | AlreadyAddedToDojo
    | AssertionFailed
    | HashCompareFailure
    | Storage(cause: Store.StoreError)
}
