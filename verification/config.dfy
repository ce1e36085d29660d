/**
 The part of the service configuration that `minion/service.go` reads.
 The modelled operations consult the log dirs flag and the roundtrip
 and commit thresholds; the remaining fields are read only by service
 construction and startup, which are not modelled, and are kept so
 that "no other field changes" has something to say. The
 configuration's parsing and validation are not part of this model.
 */
module Configuration {
  import opened Durations

  /** How consumer group offsets are gathered. */
  datatype ScrapeMode = AdminApi | OffsetsTopic

  datatype ConsumerGroupsConfig = ConsumerGroupsConfig(
    scrapeMode: ScrapeMode,
    allowedGroupIds: seq<string>,
    ignoredGroupIds: seq<string>)

  datatype TopicsConfig = TopicsConfig(
    allowedTopics: seq<string>,
    ignoredTopics: seq<string>)

  datatype LogDirsConfig = LogDirsConfig(enabled: bool)

  /** Service level thresholds: the largest latency that still counts as a success. */
  datatype ProducerConfig = ProducerConfig(ackSla: Duration)
  datatype ConsumerConfig = ConsumerConfig(roundtripSla: Duration, commitSla: Duration)

  datatype EndToEndConfig = EndToEndConfig(
    enabled: bool,
    producer: ProducerConfig,
    consumer: ConsumerConfig)

  datatype Config = Config(
    consumerGroups: ConsumerGroupsConfig,
    topics: TopicsConfig,
    logDirs: LogDirsConfig,
    endToEnd: EndToEndConfig)
}
