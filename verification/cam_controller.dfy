/**
 * The high-level camera controller (`CamController`): its configuration
 * dictionary and the translation of configured option names into device
 * property settings. The device handle is abstracted to the list of
 * (property, value) settings sent to it.
 */
module CamController {
  import opened Common

  /** The exception `_set_property_from_dict` lets escape. */
  datatype CtlError = KeyError

  /** The trigger properties whose device name differs from the configured one. */
  const RENAMED_PROPERTIES: set<string> := {"trig_in_mode", "trig_in_type", "trig_in_source", "trig_in_polarity",
    "master_pulse_source", "trig_out_kind", "trig_out_source", "trig_out_polarity"}

  /** The device's own name for a configured trigger property; other names are passed through. */
  function DevicePropertyName(propName: string): (r: string)
    ensures r == propName <==> propName !in RENAMED_PROPERTIES
  {
    if propName == "trig_in_mode" then "trigger_mode"
    else if propName == "trig_in_type" then "trigger_active"
    else if propName == "trig_in_source" then "trigger_source"
    else if propName == "trig_in_polarity" then "trigger_polarity"
    else if propName == "master_pulse_source" then "master_pulse_trigger_source"
    else if propName == "trig_out_kind" then "output_trigger_kind[0]"
    else if propName == "trig_out_source" then "output_trigger_source[0]"
    else if propName == "trig_out_polarity" then "output_trigger_polarity[0]"
    else propName
  }

  /**
   * What `_set_property_from_dict` sends: KeyError for an unconfigured name,
   * nothing when the configured option is not in the table, else the device
   * property and the option's number.
   */
  function PropertyFromDict(config: map<string, ConfigValue>, propName: string, table: map<string, int>)
    : (r: Result<Option<(string, int)>, CtlError>)
    ensures r.Err? <==> propName !in config
    ensures r.Ok? && r.value.Some? <==> propName in config && config[propName].Text? && config[propName].text in table
    ensures r.Ok? && r.value.Some? ==> r.value.value == (DevicePropertyName(propName), table[config[propName].text])
  {
    if propName !in config then Err(KeyError)
    else match config[propName]
      case Text(option) =>
        if option in table then Ok(Some((DevicePropertyName(propName), table[option]))) else Ok(None)
      case _ => Ok(None)
  }

  /** The module-level `config` the controller starts with. */
  const DEFAULT_CONFIG: map<string, ConfigValue> := map[
    "simulation" := Flag(false),
    "image_shape" := Shape(2048, 2048), "sensor_shape" := Shape(2048, 2048),
    "exposure_ms" := Num(20.0),
    "trigger_in" := Flag(true),
    "trig_in_mode" := Text("NORMAL"), "trig_in_source" := Text("EXTERNAL"),
    "trig_in_type" := Text("SYNCREADOUT"), "trig_in_polarity" := Text("NEGATIVE"),
    "master_pulse_source" := Text("EXTERNAL"), "master_pulse_mode" := Text("CONTINUOUS"),
    "master_pulse_burst_times" := Num(1.0), "master_pulse_interval_s" := Num(0.1),
    "trigger_out" := Flag(true),
    "trig_out_kind" := Text("EXPOSURE"), "trig_out_source" := Text("MASTER_PULSE"),
    "trig_out_duration_s" := Num(0.001), "trig_out_polarity" := Text("POSITIVE")
  ]

  class CamController {
    var config: map<string, ConfigValue>
    /** The (device property, value) settings sent to the camera, in order. */
    var sent: seq<(string, int)>

    constructor()
      ensures config == DEFAULT_CONFIG && sent == []
    {
      config := DEFAULT_CONFIG;
      sent := [];
    }

    /** `_set_property_from_dict`: one setting is sent when the configured option is in the table. */
    method SetPropertyFromDict(propName: string, table: map<string, int>) returns (r: Result<(), CtlError>)
      modifies this`sent
      ensures r.Err? <==> propName !in config
      ensures sent == match PropertyFromDict(config, propName, table)
        case Ok(Some(setting)) => old(sent) + [setting]
        case _ => old(sent)
    {
      var p := PropertyFromDict(config, propName, table);
      match p
      case Err(e) =>
        r := Err(e);
      case Ok(None) =>
        r := Ok(());
      case Ok(Some(setting)) =>
        sent := sent + [setting];
        r := Ok(());
    }

    /** `update_config`: only an existing key is written. */
    method UpdateConfig(key: string, value: ConfigValue)
      modifies this`config
      ensures config == if key in old(config) then old(config)[key := value] else old(config)
      ensures config.Keys == old(config).Keys
    {
      if key in config {
        config := config[key := value];
      }
    }
  }

  /** The option tables `setup_triggers` uses for the trigger-in mode and the trigger-out kind. */
  const TRIG_IN_MODES: map<string, int> := map["NORMAL" := 1, "START" := 6]
  const TRIG_OUT_KINDS: map<string, int> :=
    map["LOW" := 1, "EXPOSURE" := 2, "PROGRAMMABLE" := 3, "TRIGGER READY" := 4, "HIGH" := 5]

  /** With the default configuration the trigger-in mode and trigger-out kind reach the device under its own names. */
  lemma DefaultTriggerSettings()
    ensures PropertyFromDict(DEFAULT_CONFIG, "trig_in_mode", TRIG_IN_MODES) == Ok(Some(("trigger_mode", 1)))
    ensures PropertyFromDict(DEFAULT_CONFIG, "trig_out_kind", TRIG_OUT_KINDS) == Ok(Some(("output_trigger_kind[0]", 2)))
  {
  }

  /** An option changed with `update_config` to one outside the table sends nothing. */
  lemma UnknownOptionSendsNothing(config: map<string, ConfigValue>, propName: string, option: string, table: map<string, int>)
    requires propName in config && option !in table
    ensures PropertyFromDict(config[propName := Text(option)], propName, table) == Ok(None)
  {
  }

  /** The nine trigger properties keep distinct device names, so no setting overwrites another. */
  lemma DeviceNamesDistinct()
    ensures var names := ["trig_in_mode", "trig_in_type", "trig_in_source", "trig_in_polarity", "master_pulse_source",
                          "master_pulse_mode", "trig_out_kind", "trig_out_source", "trig_out_polarity"];
      forall i, j | 0 <= i < j < |names| :: DevicePropertyName(names[i]) != DevicePropertyName(names[j])
  {
  }
}
