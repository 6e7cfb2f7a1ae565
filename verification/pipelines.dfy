/**
  `build_estimator`: turns a configuration, a list of steps each naming an
  estimator and its parameters, into the step list of a pipeline. Estimators
  are opaque tags here; constructing one from its parameters is not modelled,
  so a built step carries its tag and the parameters it would be given.
 */
module Pipelines {
  import opened Wrappers

  /** The exceptions building a pipeline from its configuration can raise. */
  datatype ConfigError =
    | MissingField(field: string)    // KeyError from `step[field]`
    | UnknownEstimator(name: string) // KeyError from the estimator mapping

  /** The estimators the mapping can construct. */
  datatype Kind =
    | RandomForestRegressor
    | LinearRegression
    | AveragePricePerNeighborhoodRegressor
    | AgeExtractor
    | CategoricalEncoder
    | StandardScaler
    | Discretizer
    | Crosser
    | AveragePricePerNeighborhoodExtractor

  /**
    `get_estimator_mapping()`: configuration name to estimator. It offers each
    estimator under exactly its `ConfigName`, and no other name.
   */
  function EstimatorMapping(): (r: map<string, Kind>)
    ensures forall k: Kind :: ConfigName(k) in r && r[ConfigName(k)] == k
    ensures forall name :: name in r ==> ConfigName(r[name]) == name
  {
    map[
      "random-forest-regressor" := RandomForestRegressor,
      "linear-regressor" := LinearRegression,
      "average-price-per-neighborhood-regressor" := AveragePricePerNeighborhoodRegressor,
      "age-extractor" := AgeExtractor,
      "categorical-encoder" := CategoricalEncoder,
      "standard-scaler" := StandardScaler,
      "discretizer" := Discretizer,
      "crosser" := Crosser,
      "averager" := AveragePricePerNeighborhoodExtractor
    ]
  }

  /** One configuration entry: a dict that should hold the keys "name" and "params". */
  datatype StepConfig<P> = StepConfig(name: Option<string>, params: Option<P>)

  /** One pipeline step: its configuration name and the estimator built for it. */
  datatype Step<P> = Step(name: string, kind: Kind, params: P)

  /** A configuration entry the loop body gets through without raising. */
  predicate Buildable<P>(c: StepConfig<P>)
  {
    c.name.Some? && c.params.Some? && c.name.value in EstimatorMapping()
  }

  /** The exception the loop body raises on an entry that is not buildable, in evaluation order. */
  function StepError<P>(c: StepConfig<P>): ConfigError
  {
    if c.name.None? then MissingField("name")
    else if c.params.None? then MissingField("params")
    else UnknownEstimator(c.name.value)
  }

  /**
    `build_estimator(config)`: one step per entry, in configuration order, each
    paired with its entry's name; the first entry that lacks a field or names
    no known estimator aborts the whole build with that entry's error.
   */
  method BuildEstimator<P>(config: seq<StepConfig<P>>) returns (r: Result<seq<Step<P>>, ConfigError>)
    ensures r.Success? <==> forall i :: 0 <= i < |config| ==> Buildable(config[i])
    ensures r.Success? ==>
      && |r.value| == |config|
      && forall i :: 0 <= i < |config| ==>
        && r.value[i].name == config[i].name.value
        && r.value[i].kind == EstimatorMapping()[config[i].name.value]
        && r.value[i].params == config[i].params.value
    ensures r.Failure? ==>
      exists i :: 0 <= i < |config|
        && !Buildable(config[i])
        && (forall j :: 0 <= j < i ==> Buildable(config[j]))
        && r.error == StepError(config[i])
  {
    var mapping := EstimatorMapping();
    var steps: seq<Step<P>> := [];
    var i := 0;
    while i < |config|
      invariant 0 <= i <= |config|
      invariant |steps| == i
      invariant forall j :: 0 <= j < i ==> Buildable(config[j])
      invariant forall j :: 0 <= j < i ==>
        steps[j] == Step(config[j].name.value, mapping[config[j].name.value], config[j].params.value)
    {
      var entry := config[i];
      if entry.name.None? {
        return Failure(MissingField("name"));
      }
      var name := entry.name.value;
      if entry.params.None? {
        return Failure(MissingField("params"));
      }
      var params := entry.params.value;
      if name !in mapping {
        return Failure(UnknownEstimator(name));
      }
      steps := steps + [Step(name, mapping[name], params)];
      i := i + 1;
    }
    return Success(steps);
  }

  /** The configuration name under which the mapping offers an estimator. */
  function ConfigName(k: Kind): string
  {
    match k
    case RandomForestRegressor => "random-forest-regressor"
    case LinearRegression => "linear-regressor"
    case AveragePricePerNeighborhoodRegressor => "average-price-per-neighborhood-regressor"
    case AgeExtractor => "age-extractor"
    case CategoricalEncoder => "categorical-encoder"
    case StandardScaler => "standard-scaler"
    case Discretizer => "discretizer"
    case Crosser => "crosser"
    case AveragePricePerNeighborhoodExtractor => "averager"
  }

  /**
    The mapping is one-to-one and onto: two names offer the same estimator
    only when they are the same name, and every estimator is offered.
   */
  lemma MappingIsOneToOne()
    ensures forall n1, n2 ::
      (n1 in EstimatorMapping() && n2 in EstimatorMapping() && EstimatorMapping()[n1] == EstimatorMapping()[n2])
      ==> n1 == n2
    ensures forall k: Kind :: k in EstimatorMapping().Values
  {
    var m := EstimatorMapping();
    forall k: Kind
      ensures k in m.Values
    {
      assert ConfigName(k) in m && m[ConfigName(k)] == k;
    }
  }
}
