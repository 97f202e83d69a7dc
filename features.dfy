/** The feature gate: `context.config.features` and `isFeatureEnabled`. */
module Features {

  /** A configuration entry as JavaScript sees it: absent, a boolean, a
      string, or an array of entries. */
  datatype Value = Undefined | Bool(b: bool) | Str(s: string) | List(items: seq<Value>)

  /** `context.config.features`, keyed by feature name. It belongs to the
      host and may change between requests, so every operation is handed the
      configuration current at the time of the call. */
  type FeatureConfig = map<string, Value>

  /** What `isFeatureEnabled` may be asked to look for: `true` (the default)
      or one of the options of an enumerated feature. */
  predicate IsCheckValue(v: Value) {
    v.Bool? || v.Str?
  }

  /** `features[name]`, which is `undefined` for a name that is not set. */
  function Lookup(features: FeatureConfig, name: string): (v: Value)
    ensures name !in features ==> v == Undefined
  {
    if name in features then features[name] else Undefined
  }

  /** `isFeatureEnabled(featureName, checkFor)`: an array-valued feature is
      enabled for `checkFor` when one of its entries is `checkFor`; any other
      value must be strictly equal to it. */
  function IsFeatureEnabled(features: FeatureConfig, featureName: string, checkFor: Value): (r: bool)
    requires IsCheckValue(checkFor)
    ensures Lookup(features, featureName).List? ==>
              (r <==> exists k :: 0 <= k < |Lookup(features, featureName).items| &&
                                  Lookup(features, featureName).items[k] == checkFor)
    ensures !Lookup(features, featureName).List? ==> (r <==> Lookup(features, featureName) == checkFor)
  {
    var feature := Lookup(features, featureName);
    if feature.List? then checkFor in feature.items else feature == checkFor
  }

  /** `isFeatureEnabled(featureName)` with the default `checkFor = true`: the
      feature is `true`, or an array holding `true`. */
  function IsEnabled(features: FeatureConfig, featureName: string): (r: bool)
    ensures r <==> Lookup(features, featureName) == Bool(true) ||
                   (Lookup(features, featureName).List? && Bool(true) in Lookup(features, featureName).items)
  {
    IsFeatureEnabled(features, featureName, Bool(true))
  }

  /** A feature that is not configured is never enabled. */
  lemma UnsetFeatureIsDisabled(features: FeatureConfig, featureName: string, checkFor: Value)
    requires IsCheckValue(checkFor) && featureName !in features
    ensures !IsFeatureEnabled(features, featureName, checkFor)
  {
  }

  /** A scalar feature is enabled for at most one value. */
  lemma ScalarFeatureEnabledForOneValue(features: FeatureConfig, featureName: string, a: Value, b: Value)
    requires IsCheckValue(a) && IsCheckValue(b)
    requires !Lookup(features, featureName).List?
    requires IsFeatureEnabled(features, featureName, a) && IsFeatureEnabled(features, featureName, b)
    ensures a == b
  {
  }

  /** Options of an array-valued feature are independent: adding an option
      enables it and leaves every other option as it was. */
  lemma AddingOptionEnablesOnlyIt(features: FeatureConfig, featureName: string, items: seq<Value>, option: Value, other: Value)
    requires IsCheckValue(option) && IsCheckValue(other) && other != option
    requires Lookup(features, featureName) == List(items)
    ensures IsFeatureEnabled(features[featureName := List(items + [option])], featureName, option)
    ensures IsFeatureEnabled(features[featureName := List(items + [option])], featureName, other) ==
            IsFeatureEnabled(features, featureName, other)
  {
  }
}
