/** Configuration records and the equality the reloader, the reconciler and the filter cache decide by. */
module Configs {

  datatype ScaleConfig = ScaleConfig(width: int, height: int)
  datatype CropConfig = CropConfig(x: int, y: int, width: int, height: int)
  datatype ProcessingConfig = ProcessingConfig(scale: ScaleConfig, crop: CropConfig)
  datatype EventConfig = EventConfig(
    id: int, name: string, targetFps: real, batchSize: int, processing: ProcessingConfig)

  datatype StreamConfig = StreamConfig(
    id: int, url: string, targetFps: real, waitForKeyframe: bool, enabled: bool,
    processing: ProcessingConfig, events: seq<EventConfig>)

  datatype GlobalConfig = GlobalConfig(
    logLevel: string, streamConfigs: seq<StreamConfig>, instanceSlot: int, totalInstances: int, maxStreams: int,
    whitelist: set<int>, hasWhitelist: bool)

  /** `StreamConfig::operator==`. */
  predicate SameStream(a: StreamConfig, b: StreamConfig) {
    && a.id == b.id && a.url == b.url && a.waitForKeyframe == b.waitForKeyframe
    && a.enabled == b.enabled && a.events == b.events && a.processing == b.processing
  }

  /** Equal streams differ in their own target rate at most. */
  lemma SameStreamIff(a: StreamConfig, b: StreamConfig)
    ensures SameStream(a, b) <==> a.(targetFps := b.targetFps) == b
  {
  }

  /** `GlobalConfig::operator==`. */
  predicate SameGlobal(a: GlobalConfig, b: GlobalConfig) {
    && a.logLevel == b.logLevel
    && |a.streamConfigs| == |b.streamConfigs|
    && (forall i | 0 <= i < |a.streamConfigs| :: SameStream(a.streamConfigs[i], b.streamConfigs[i]))
    && a.instanceSlot == b.instanceSlot && a.totalInstances == b.totalInstances && a.maxStreams == b.maxStreams
    && a.hasWhitelist == b.hasWhitelist && a.whitelist == b.whitelist
  }

  /** Equal configurations differ in the own target rates of their streams at most. */
  lemma SameGlobalIff(a: GlobalConfig, b: GlobalConfig)
    ensures SameGlobal(a, b)
       <==> && a.(streamConfigs := b.streamConfigs) == b && |a.streamConfigs| == |b.streamConfigs|
            && forall i | 0 <= i < |a.streamConfigs| ::
                 a.streamConfigs[i].(targetFps := b.streamConfigs[i].targetFps) == b.streamConfigs[i]
  {
    forall i | 0 <= i < |a.streamConfigs| && |a.streamConfigs| == |b.streamConfigs|
      ensures SameStream(a.streamConfigs[i], b.streamConfigs[i])
         <==> a.streamConfigs[i].(targetFps := b.streamConfigs[i].targetFps) == b.streamConfigs[i]
    {
      SameStreamIff(a.streamConfigs[i], b.streamConfigs[i]);
    }
  }
}
