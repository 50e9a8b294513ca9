/** Client code showing what entities sharing the registry observe. */
module Scenarios {
  import opened Wrappers
  import opened SerialSend
  import opened Cover
  import opened Light

  /**
   * A light on port `a`, then a cover on another port `b`, then a second light
   * on `a`: the second light is handed the cover's sender, which `__init__` has
   * re-pointed at `a`, and not the first light's.
   */
  method SecondLightTakesCoverSender(coverConfig: CoverConfig, lightConfig: LightConfig)
    returns (first: SerialSendLight, cover: SerialSendCover, second: SerialSendLight)
    requires coverConfig.port.serialPort != lightConfig.port.serialPort
    requires FirstMissingKey(coverConfig).None?
    ensures second.sender == cover.sender && second.sender != first.sender
    ensures cover.sender.serialPort == lightConfig.port.serialPort && !cover.sender.isBusy
  {
    var registry := new Registry();
    first := new SerialSendLight(registry, lightConfig);
    var created := CreateCover(registry, coverConfig);
    cover := created.value;
    second := new SerialSendLight(registry, lightConfig);
  }
}
