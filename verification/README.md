# MNIST dataset and denoising-autoencoder configuration, in Dafny

This project models two small parts of the OpenDeep toolkit.

- **The MNIST dataset object** (`opendeep/data/image/mnist.py`), from the point where the three decoded
  `(inputs, labels)` pairs are in hand. With `binary` set, each split's inputs are thresholded at 0.5,
  independently of the others. The valid inputs and labels are then appended to the train inputs and labels.
  The three shapes are recorded and all six arrays are stored. `getDataByIndices` and `getLabelsByIndices`
  select rows or labels by a subset tag and a list of indices.
- **The denoising autoencoder's configuration** (`opendeep/models/single_layer/denoising_autoencoder.py`).
  This covers the class default table and the constructor override that forces `layers = 1`. It also covers
  `StackedDAE`, whose constructor always fails.

Files:

- `common.dfy`: the `Option` and `Result` datatypes.
- `mnist.dfy`: module `Mnist`. A feature array is a `Matrix` holding a column count and a `seq<seq<real>>` of
  rows. Labels are a `seq<int>`. A subset tag is `Train | Valid | Test | Unrecognised(tag)`. A lookup yields
  `Absent` (Python's `None`), `Found(items)`, or `OutOfRange` (numpy's IndexError).
- `dae.dfy`: module `DenoisingAutoencoder`. A configuration is a `map<string, Value>`. The override is a pure
  function that returns the updated `(defaults, config)` pair.

Modelling choices worth noting:

- The merge does **not** clear the valid split. The constructor stores the valid arrays it merged
  (`mnist.py:53`, `mnist.py:60-62`). A `Valid` lookup after construction therefore still returns the valid
  rows. `Mnist.ValidSurvivesMerge` and `Mnist.MergedLookupExample` state this.
- The data lookup reads train inputs without any presence test (`mnist.py:75-76`). The label lookup guards
  every subset, train included (`mnist.py:94`).
- Indices follow numpy: an index `i` into `n` items is accepted when `-n <= i < n`, and a negative index
  counts from the end. Any other index makes the lookup fail with IndexError, which is not clamped.
- `numpy.concatenate` refuses arrays whose column counts differ. `Mnist.Load` returns
  `Failure(WidthMismatch(..))` in that case.
- The guard `hasattr(self, a) and self.a` is modelled as a presence test only. The stored objects are
  shared variables built by `make_shared_variables`, which is not part of this model. They are assumed to be
  truthy whatever they hold, so an empty stored array still passes the guard. Since construction stores all six
  arrays, a lookup on a constructed dataset is `None` only for an unrecognised subset tag.
  `Mnist.LoadedLookupsAbsentOnlyForUnknownTag` and `Mnist.EmptyTrainLookupsAnswer` state this.

## Model

| member | source | states |
|---|---|---|
| `Mnist.BinariseRow` | opendeep/data/image/mnist.py:44-46 | each output element is 1.0 exactly when the input element is strictly above 0.5, and 0.0 exactly when it is at or below it; the length is kept |
| `Mnist.BinariseRows` | opendeep/data/image/mnist.py:44-46 | the output is the elementwise thresholding of the whole array (same row count, same row lengths) and every element is 0.0 or 1.0 |
| `Mnist.Prepare` | opendeep/data/image/mnist.py:41-46 | with `binary` set, a split's inputs are thresholded and become binary; with it unset, they are unchanged; width and row count are kept |
| `Mnist.BinariseIdempotent` | opendeep/data/image/mnist.py:42-46 | thresholding an already thresholded array changes nothing |
| `Mnist.ThresholdsUnique` | opendeep/data/image/mnist.py:44-46 | an array has only one thresholded form |
| `Mnist.BinariseDistributesOverConcat` | opendeep/data/image/mnist.py:44-50 | thresholding train and valid separately and then concatenating equals thresholding the concatenation |
| `Mnist.Load` | opendeep/data/image/mnist.py:40-62 | fails exactly when train and valid widths differ; otherwise merged train inputs are the prepared train rows followed by the prepared valid rows (length is the sum), train labels are train labels followed by valid labels, valid and test keep their own prepared inputs and labels, the train shape is the merged shape and the valid and test shapes are their own |
| `Mnist.Gather` | opendeep/data/image/mnist.py:76 | indexing with a list succeeds exactly when every index is in numpy's accepted range, and then yields one item per index, in index order, duplicates kept |
| `Mnist.GetDataByIndices` | opendeep/data/image/mnist.py:65-82 | TRAIN always indexes the train rows; VALID and TEST index their rows when stored and are Absent otherwise; an unrecognised tag is Absent |
| `Mnist.GetLabelsByIndices` | opendeep/data/image/mnist.py:84-101 | every known tag, TRAIN included, indexes its labels when stored and is Absent otherwise; an unrecognised tag is Absent |
| `Mnist.MergedPositionHoldsSample` | opendeep/data/image/mnist.py:49-50 | position p of the merged train set holds train sample p when p is below the train count, else valid sample p minus the train count, in both inputs and labels |
| `Mnist.TrainLookupsStayAligned` | opendeep/data/image/mnist.py:49-50 | after construction, the train row and train label selected at each index come from the same original sample |
| `Mnist.ValidSurvivesMerge` | opendeep/data/image/mnist.py:53-62 | after construction, VALID lookups still index the prepared valid inputs and the original valid labels |
| `Mnist.LoadedLookupsAbsentOnlyForUnknownTag` | opendeep/data/image/mnist.py:60-101 | on a constructed dataset, both lookups are Absent exactly when the subset tag is unrecognised |
| `Mnist.MergedLookupExample` | opendeep/data/image/mnist.py:49-82 | with 5 train, 2 valid and 3 test samples: indices [0, 6] on TRAIN give train row 0 and valid row 1 with their labels, -1 gives the last valid row, 7 is out of range, VALID still answers, and an unknown tag is Absent |
| `Mnist.EmptyTrainLookupsAnswer` | opendeep/data/image/mnist.py:75-95 | with no train or valid samples, both TRAIN lookups answer: an empty index list selects nothing and any index is out of range |
| `DenoisingAutoencoder.Defaults` | opendeep/models/single_layer/denoising_autoencoder.py:37-55 | the default table has exactly its fifteen keys and no `layers` key; walkbacks 1, noise_annealing 1.0, add_noise true, noiseless_h1 true, hidden_add_noise_sigma 2, input_salt_and_pepper 0.4, input_sampling true |
| `DenoisingAutoencoder.ForceSingleLayer` | opendeep/models/single_layer/denoising_autoencoder.py:57-62 | the defaults always end with `layers = 1` and every other key unchanged; a truthy config ends with `layers = 1` whatever it held, other keys unchanged; a None or empty config is returned as given |
| `DenoisingAutoencoder.EmptyConfigUntouched` | opendeep/models/single_layer/denoising_autoencoder.py:61-62 | an empty config stays empty (no `layers` key is added) and None stays None |
| `DenoisingAutoencoder.ForceSingleLayerIdempotent` | opendeep/models/single_layer/denoising_autoencoder.py:60-62 | applying the override twice gives the same pair of maps as applying it once |
| `DenoisingAutoencoder.OverrideFixesLayers` | opendeep/models/single_layer/denoising_autoencoder.py:59-63 | after the override, looking up `layers` in the config and then in the defaults yields 1, whatever the caller passed |
| `DenoisingAutoencoder.NewStackedDae` | opendeep/models/single_layer/denoising_autoencoder.py:66-73 | constructing a stacked autoencoder never yields an object; it always fails with the not-implemented error |

## Left out

- Reading the data file: download and caching, file-type detection, gzip and pickle decoding
  (`mnist.py:28-38`). These are I/O. The three decoded pairs are parameters of `Mnist.Load`.
- Transfer into Theano shared variables and `get_value(borrow=True)` (`mnist.py:58-62`). These belong to a
  foreign library and concern memory placement. The stored arrays are plain sequences.
- `float32` rounding of the inputs. Values are exact reals, so the cutoff comparison is exact.
- A scalar index returns an unwrapped row in numpy. It is modelled as a one-element list of indices, so the
  result is a one-element selection.
- Logging calls in both files.
- `Mnist.GetDataByIndices`, `Mnist.GetLabelsByIndices`: the truthiness of the stored shared variables is
  defined outside the shown code; the model assumes they are always truthy, so the guard tests presence only.
- `Mnist.LoadedLookupsAbsentOnlyForUnknownTag`, `Mnist.EmptyTrainLookupsAnswer`: these rest on the same
  assumption that a stored shared variable is truthy even when it holds no rows.
- `DenoisingAutoencoder.OverrideFixesLayers`: the precedence of config over defaults is implemented in the
  `GSN` and `Model` superclasses, which are not part of this model. The lemma assumes that precedence, as the
  `Setting` helper states it.
- The `GSN` superclass construction called at `denoising_autoencoder.py:63`: the walkback chain, noise
  injection and cost. It relies on random sampling, floating-point tensor maths and Theano graph compilation.
- The `Model` superclass constructor called first by `StackedDAE` (`denoising_autoencoder.py:71`). It is not
  part of this model. Only the failure that follows it is modelled.
- The random-stream default `MRG_RandomStreams(1)` is modelled as an opaque value `RandomStreams(1)`.
- `main()` (`denoising_autoencoder.py:79-99`): it wires the dataset, model and optimizer together and trains.
- Python's shared mutable default argument. The class-level `_defaults` dictionary is mutated in place and is
  seen by later constructions. The override is modelled as a function returning the updated map instead.
