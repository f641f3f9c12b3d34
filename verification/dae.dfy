/** The denoising autoencoder's configuration handling: its table of
    defaults, the override that forces a single hidden layer, and the
    stacked variant whose construction always fails. */
module DenoisingAutoencoder {
  import opened Common

  /** A configuration value. `RandomStreams(seed)` stands for the seeded
      random-stream object kept among the defaults. */
  datatype Value =
    | IntV(i: int)
    | RealV(r: real)
    | BoolV(b: bool)
    | StrV(s: string)
    | RandomStreams(seed: int)

  /** A configuration dictionary. */
  type Config = map<string, Value>

  /** The key the autoencoder forces, and the value it forces there. */
  const LayersKey: string := "layers"
  const SingleLayer: Value := IntV(1)

  /** The class-level default table. It has no `layers` entry of its own:
      that entry is written by the override. */
  function Defaults(): (m: Config)
    ensures LayersKey !in m
    ensures m.Keys == {"walkbacks", "hidden_size", "visible_activation", "hidden_activation",
                       "input_sampling", "MRG", "cost_function", "noise_annealing", "add_noise",
                       "noiseless_h1", "hidden_add_noise_sigma", "input_salt_and_pepper",
                       "output_path", "is_image", "vis_init"}
    ensures m["walkbacks"] == IntV(1)
    ensures m["noise_annealing"] == RealV(1.0)
    ensures m["add_noise"] == BoolV(true)
    ensures m["noiseless_h1"] == BoolV(true)
    ensures m["hidden_add_noise_sigma"] == IntV(2)
    ensures m["input_salt_and_pepper"] == RealV(0.4)
    ensures m["input_sampling"] == BoolV(true)
  {
    map[
      "walkbacks" := IntV(1),
      "hidden_size" := IntV(1500),
      "visible_activation" := StrV("sigmoid"),
      "hidden_activation" := StrV("tanh"),
      "input_sampling" := BoolV(true),
      "MRG" := RandomStreams(1),
      "cost_function" := StrV("binary_crossentropy"),
      "noise_annealing" := RealV(1.0),
      "add_noise" := BoolV(true),
      "noiseless_h1" := BoolV(true),
      "hidden_add_noise_sigma" := IntV(2),
      "input_salt_and_pepper" := RealV(0.4),
      "output_path" := StrV("outputs/dae/"),
      "is_image" := BoolV(true),
      "vis_init" := BoolV(false)
    ]
  }

  /** Python truthiness of the `config` argument: not None and not an
      empty dictionary. */
  predicate Truthy(config: Option<Config>) {
    config.Some? && |config.value| > 0
  }

  /** `m` is `before` with `layers` set to one and every other entry kept. */
  ghost predicate ForcedFrom(m: Config, before: Config) {
    && m.Keys == before.Keys + {LayersKey}
    && m[LayersKey] == SingleLayer
    && forall k :: k in before && k != LayersKey ==> m[k] == before[k]
  }

  /** The override at the start of the autoencoder's constructor: the
      defaults always get `layers = 1`; the caller's config gets it only
      when it is truthy. Returns the updated (defaults, config) pair. */
  function ForceSingleLayer(defaults: Config, config: Option<Config>): (r: (Config, Option<Config>))
    ensures ForcedFrom(r.0, defaults)
    ensures r.1.Some? <==> config.Some?
    ensures Truthy(config) ==> ForcedFrom(r.1.value, config.value)
    ensures !Truthy(config) ==> r.1 == config
  {
    var d := defaults[LayersKey := SingleLayer];
    if Truthy(config) then (d, Some(config.value[LayersKey := SingleLayer])) else (d, config)
  }

  /** An empty config is left empty: it does not gain a `layers` entry. */
  lemma EmptyConfigUntouched(defaults: Config)
    ensures ForceSingleLayer(defaults, Some(map[])).1 == Some(map[])
    ensures ForceSingleLayer(defaults, None).1 == None
  {
  }

  /** Applying the override to its own output changes nothing. */
  lemma ForceSingleLayerIdempotent(defaults: Config, config: Option<Config>)
    ensures
      var once := ForceSingleLayer(defaults, config);
      ForceSingleLayer(once.0, once.1) == once
  {
    var once := ForceSingleLayer(defaults, config);
    var twice := ForceSingleLayer(once.0, once.1);
    assert twice.0 == once.0;
    if Truthy(config) {
      assert Truthy(once.1);
      assert twice.1.value == once.1.value;
    }
  }

  /** The value a setting takes when the caller's config is consulted
      before the defaults. */
  function Setting(defaults: Config, config: Option<Config>, key: string): Option<Value> {
    if config.Some? && key in config.value then Some(config.value[key])
    else if key in defaults then Some(defaults[key])
    else None
  }

  /** Whatever the caller passed, including a `layers` entry of its own,
      an empty config or none at all, after the override every lookup of
      `layers` that prefers the config over the defaults yields one. */
  lemma OverrideFixesLayers(defaults: Config, config: Option<Config>)
    ensures
      var r := ForceSingleLayer(defaults, config);
      Setting(r.0, r.1, LayersKey) == Some(SingleLayer)
  {
  }

  /** The stacked autoencoder: declared, never constructed. */
  datatype StackedDae = StackedDae

  datatype ConstructionError = NotImplemented(message: string)

  /** Constructing a stacked autoencoder always fails. */
  method NewStackedDae() returns (r: Result<StackedDae, ConstructionError>)
    ensures r.Failure?
    ensures r.error == NotImplemented("StackedDAE not implemented yet!")
  {
    r := Failure(NotImplemented("StackedDAE not implemented yet!"));
  }
}
