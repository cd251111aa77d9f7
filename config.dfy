/**
 * The parts of the application's configuration the mirroring passes read:
 * the Stack Exchange site, how many questions to keep watching, the extra
 * query parameters of each endpoint, the Slack channel to post in and the
 * team's icon set (as obtained from Slack's team info).
 */
module Settings {
  import opened StackExchange

  datatype Config = Config(
    site: string,
    questionsToWatch: int,
    searchAdvanced: map<string, string>,
    questions: map<string, string>,
    channel: string,
    teamIcon: map<string, Value>)
}
