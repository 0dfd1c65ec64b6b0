/** The report's records (src/main.rs, `RepoConfig`, `FileConfig`, `Item`). */
module Model {

  /** One pull request, normalised from a search result. */
  datatype Item = Item(
    issueNumber: string,
    issueTitle: string,
    issueUrl: string,
    repositoryName: string,
    repositoryUrl: string,
    userLogin: string,
    userUrl: string)

  /** A label of the configuration: a heading name, the `owner/repo` names it
      claims, and the items gathered under it (empty unless the configuration
      already lists some). */
  datatype RepoConfig = RepoConfig(name: string, repos: seq<string>, items: seq<Item>)

  /** The configuration file, already parsed; absent keys are empty sequences. */
  datatype FileConfig = FileConfig(
    labels: seq<RepoConfig>,
    header: seq<string>,
    users: seq<string>,
    exclude: seq<string>)

  function RepositoryNameOf(item: Item): string
  {
    item.repositoryName
  }

  function LabelNameOf(group: RepoConfig): string
  {
    group.name
  }
}
