/**
 * The MQTT topics and the Home Assistant names the firmware derives from the
 * device identity (upurifier.py, `connect_mqtt` and `connect_ha`).
 */
module Topics {
  import opened Wrappers
  import opened Text

  /** The seven topics of one device. */
  datatype TopicSet = TopicSet(
    state: string, command: string,
    speedState: string, speedCommand: string,
    modeState: string, modeCommand: string,
    availability: string)

  /** The base topic: the device type and the client id, each between slashes. */
  function BaseTopic(deviceType: string, clientId: string): string {
    "/" + deviceType + "/" + clientId + "/"
  }

  function Under(base: string, suffix: string): (topic: string)
    ensures |topic| == |base| + |suffix| + 1
    ensures topic[..|base|] == base && topic[|base|..] == suffix + "/"
  {
    base + suffix + "/"
  }

  function MakeTopics(deviceType: string, clientId: string): (t: TopicSet)
    ensures forall i :: 0 <= i < 7 ==> |All(t)[i]| > 0 && All(t)[i][0] == '/' && All(t)[i][|All(t)[i]| - 1] == '/'
  {
    var base := BaseTopic(deviceType, clientId);
    TopicSet(
      Under(base, "state"), Under(base, "set"),
      Under(base, "speed_state"), Under(base, "speed_set"),
      Under(base, "mode_state"), Under(base, "mode_set"),
      Under(base, "availability"))
  }

  function All(t: TopicSet): seq<string> {
    [t.state, t.command, t.speedState, t.speedCommand, t.modeState, t.modeCommand, t.availability]
  }

  predicate Distinct(t: TopicSet) {
    forall i, j :: 0 <= i < j < 7 ==> All(t)[i] != All(t)[j]
  }

  /**
   * For any device type and id the seven topics are pairwise different
   * and all lie under the device's base topic.
   */
  lemma MakeTopicsDistinct(deviceType: string, clientId: string)
    ensures Distinct(MakeTopics(deviceType, clientId))
    ensures forall i :: 0 <= i < 7 ==>
      var base := BaseTopic(deviceType, clientId);
      |All(MakeTopics(deviceType, clientId))[i]| > |base| &&
      All(MakeTopics(deviceType, clientId))[i][..|base|] == base
  {
    // the seven suffixes have seven different lengths
    var t := MakeTopics(deviceType, clientId);
    var n := |BaseTopic(deviceType, clientId)|;
    var lengths := [6, 4, 12, 10, 11, 9, 13];
    assert forall i :: 0 <= i < 7 ==> |All(t)[i]| == n + lengths[i];
  }

  /** The Home Assistant discovery topic of a fan with this client id. */
  function DiscoveryTopic(clientId: string): string {
    "homeassistant/fan/" + clientId + "/config"
  }

  /** The discovery topic is none of the device's own topics. */
  lemma DiscoveryTopicSeparate(deviceType: string, clientId: string)
    ensures DiscoveryTopic(clientId) !in All(MakeTopics(deviceType, clientId))
  {
    var t := MakeTopics(deviceType, clientId);
    forall i | 0 <= i < 7 ensures All(t)[i] != DiscoveryTopic(clientId) {
      assert All(t)[i][0] == '/';
      assert DiscoveryTopic(clientId)[0] == 'h';
    }
  }

  /**
   * The friendly name: underscores become spaces and the first character is
   * upper-cased; an empty entity id raises IndexError.
   */
  function FriendlyName(entityId: string): (name: Option<string>)
    ensures name.Some? <==> |entityId| > 0
    ensures name.Some? ==>
      |name.value| == |entityId| &&
      '_' !in name.value &&
      name.value[0] == Upper(if entityId[0] == '_' then ' ' else entityId[0]) &&
      (forall i :: 1 <= i < |entityId| ==>
        name.value[i] == if entityId[i] == '_' then ' ' else entityId[i])
  {
    var spaced := Replace(entityId, '_', ' ');
    if spaced == [] then None else Some(Capitalize(spaced))
  }

  /** A friendly name is its own friendly name. */
  lemma {:induction false} FriendlyNameIdempotent(entityId: string)
    requires |entityId| > 0
    ensures FriendlyName(FriendlyName(entityId).value) == FriendlyName(entityId)
  {
    var n := FriendlyName(entityId).value;
    var m := FriendlyName(n).value;
    assert Replace(n, '_', ' ') == n;
    assert m == n;
  }

  /** The device model: the capitalised device type, " with ", the client type. */
  function DeviceModel(deviceType: string, clientType: string): (model: string)
    requires |deviceType| > 0
    ensures |model| == |deviceType| + 6 + |clientType|
    ensures model[0] == Upper(deviceType[0])
    ensures model[1..|deviceType|] == deviceType[1..]
    ensures model[|deviceType|..] == " with " + clientType
  {
    Capitalize(deviceType) + " with " + clientType
  }

  lemma DeviceModelExamples(clientType: string)
    ensures DeviceModel("fornuftig", clientType) == "Fornuftig with " + clientType
    ensures DeviceModel("uppatvind", clientType) == "Uppatvind with " + clientType
  {
  }
}
