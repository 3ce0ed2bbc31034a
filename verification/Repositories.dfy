/** Repository Observations and the credential through which they are made. */
module Repositories {
  datatype Repository = Repository(
    id: int, owner: string, name: string, defaultBranch: string, etag: string, validatedAt: int)
}
