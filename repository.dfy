/** A mirror target repository (a registry plus a path prefix) and its login. */
module Repositories {
  import opened Ordering
  import opened Regsync

  datatype Repository = Repository(
    baseUrl: string,
    defaultTarget: bool,
    password: string,
    registry: string,
    repoAuth: bool,
    reqConcurrent: int,
    username: string)

  /** `compareRepositories`: repositories are ordered by their base URL alone. */
  function CompareRepositories(a: Repository, b: Repository): (c: int)
    ensures c == 0 <==> a.baseUrl == b.baseUrl
    ensures c == -StrCompare(b.baseUrl, a.baseUrl)
  {
    StrCompareAntisym(a.baseUrl, b.baseUrl);
    StrCompare(a.baseUrl, b.baseUrl)
  }

  /** The sort key that `CompareRepositories` compares. */
  function RepositoryKey(r: Repository): seq<string>
  {
    [r.baseUrl]
  }

  /** The regsync login a repository contributes. */
  function CredOf(r: Repository): ConfigCred
  {
    ConfigCred(r.registry, r.username, r.password, r.repoAuth, r.reqConcurrent)
  }
}
